/** The engine's two registries as values: which files are open, and which file a handle belongs to. */
module Registers {
  import opened RegistryKeys

  datatype Entry = Entry(name: string, vol: int, handles: set<int>)

  /** openFiles, fileHandles, and what the file objects say of themselves. */
  datatype Books<F> = Books(open: map<string, F>, handles: map<string, F>, entries: map<F, Entry>)

  ghost predicate Known<F>(b: Books<F>) {
    (forall k :: k in b.open ==> b.open[k] in b.entries) && (forall g :: g in b.handles ==> b.handles[g] in b.entries)
  }

  function KeyOf(e: Entry): string {
    GetFileGuid(e.name, e.vol)
  }

  /** Every open file is under its own key, on a volume that is not negative, with one handle at least. */
  ghost predicate FilesOk<F>(b: Books<F>)
    requires Known(b)
  {
    forall k :: k in b.open ==>
      KeyOf(b.entries[b.open[k]]) == k && b.entries[b.open[k]].vol >= 0 && b.entries[b.open[k]].handles != {}
  }

  ghost predicate LeadsTo<F>(b: Books<F>, fh: int, vol: int, f: F) {
    GetGUID(fh, vol) in b.handles && b.handles[GetGUID(fh, vol)] == f
  }

  ghost predicate Lists<F>(b: Books<F>, f: F, fh: int, vol: int) {
    && f in b.entries && KeyOf(b.entries[f]) in b.open && b.open[KeyOf(b.entries[f])] == f
    && b.entries[f].vol == vol && fh in b.entries[f].handles
  }

  /**
   * A handle leads to a file that is open under its own key and lists the handle, and the other way round; no other
   * key is registered.
   */
  ghost predicate HandlesOk<F>(b: Books<F>)
    requires Known(b)
  {
    && (forall fh, vol :: GetGUID(fh, vol) in b.handles ==> Lists(b, b.handles[GetGUID(fh, vol)], fh, vol))
    && (forall k, fh :: k in b.open && fh in b.entries[b.open[k]].handles ==>
        LeadsTo(b, fh, b.entries[b.open[k]].vol, b.open[k]))
    && (forall g :: g in b.handles ==> exists fh, vol :: g == GetGUID(fh, vol))
  }

  ghost predicate Agree<F>(b: Books<F>) {
    Known(b) && FilesOk(b) && HandlesOk(b)
  }

  /**
   * What agreement means: (vol, fh) leads to f exactly when f is open under its own key, is of that volume and lists
   * fh.
   */
  lemma HandleLeadsToItsFile<F>(b: Books<F>, fh: int, vol: int, f: F)
    requires Agree(b)
    ensures LeadsTo(b, fh, vol, f) <==> Lists(b, f, fh, vol)
  {
  }

  // ----- Open, Close and CloseFile -----

  /** The file an Open reaches: the one under its key, or `spare`, which is made. */
  function Target<F>(b: Books<F>, name: string, vol: int, spare: F): F {
    if GetFileGuid(name, vol) in b.open then b.open[GetFileGuid(name, vol)] else spare
  }

  function OpenNext<F>(b: Books<F>, name: string, fh: int, vol: int, spare: F): Books<F>
    requires Known(b)
  {
    var f := Target(b, name, vol, spare);
    var e := if GetFileGuid(name, vol) in b.open then b.entries[f] else Entry(name, vol, {});
    Books(b.open[GetFileGuid(name, vol) := f], b.handles[GetGUID(fh, vol) := f],
          b.entries[f := e.(handles := e.handles + {fh})])
  }

  function CloseNext<F>(b: Books<F>, fh: int, vol: int): Books<F>
    requires Known(b)
  {
    if GetGUID(fh, vol) !in b.handles then b
    else
      var f := b.handles[GetGUID(fh, vol)];
      var e := b.entries[f];
      var left := e.handles - {fh};
      Books(if left == {} then b.open - {GetFileGuid(e.name, vol)} else b.open,
            b.handles - {GetGUID(fh, vol)}, b.entries[f := e.(handles := left)])
  }

  /** CloseFile deletes the handles, but the file only under its plain name. */
  function CloseFileNext<F>(b: Books<F>, name: string, vol: int): Books<F>
    requires Known(b)
  {
    if GetFileGuid(name, vol) !in b.open then b
    else
      var e := b.entries[b.open[GetFileGuid(name, vol)]];
      Books(b.open - {e.name}, b.handles - (set fh | fh in e.handles :: GetGUID(fh, e.vol)), b.entries)
  }

  // ----- Runs -----

  datatype Step<F> = Open(name: string, fh: int, vol: int, spare: F) | Close(fh: int, vol: int)

  /** A handle that is not in use, or is in use for the same file; volumes are not negative. */
  ghost predicate Allowed<F>(b: Books<F>, step: Step<F>) {
    step.Open? ==>
      && step.vol >= 0 && step.spare !in b.entries
      && (GetGUID(step.fh, step.vol) in b.handles ==>
            b.handles[GetGUID(step.fh, step.vol)] == Target(b, step.name, step.vol, step.spare))
  }

  ghost function Next<F>(b: Books<F>, step: Step<F>): Books<F>
    requires Known(b)
  {
    match step
    case Open(name, fh, vol, spare) => OpenNext(b, name, fh, vol, spare)
    case Close(fh, vol) => CloseNext(b, fh, vol)
  }

  lemma TargetsEntry<F>(b: Books<F>, name: string, vol: int, spare: F)
    requires Agree(b) && vol >= 0 && spare !in b.entries
    ensures GetFileGuid(name, vol) in b.open ==>
      var e := b.entries[Target(b, name, vol, spare)]; e.name == name && e.vol == vol
    ensures GetFileGuid(name, vol) !in b.open ==> forall g :: g in b.handles ==> b.handles[g] != spare
  {
    if GetFileGuid(name, vol) in b.open {
      var e := b.entries[b.open[GetFileGuid(name, vol)]];
      FileGuidCollides(e.name, e.vol, name, vol);
    }
  }

  /** Open keeps the registries in agreement exactly when its handle is not in use for another file. */
  lemma OpenAgreesIff<F>(b: Books<F>, name: string, fh: int, vol: int, spare: F)
    requires Agree(b) && vol >= 0 && spare !in b.entries
    ensures Agree(OpenNext(b, name, fh, vol, spare)) <==> Allowed(b, Open(name, fh, vol, spare))
  {
    TargetsEntry(b, name, vol, spare);
    if Allowed(b, Open(name, fh, vol, spare)) {
      OpenAgrees(b, name, fh, vol, spare);
    } else {
      var c := OpenNext(b, name, fh, vol, spare);
      var other := b.handles[GetGUID(fh, vol)];
      assert LeadsTo(b, fh, vol, other) && Lists(b, other, fh, vol);
      assert Lists(c, other, fh, vol) && !LeadsTo(c, fh, vol, other);
    }
  }

  lemma OpenKeepsHandle<F>(b: Books<F>, name: string, fh: int, vol: int, spare: F, h: int, v: int)
    requires Agree(b) && Allowed(b, Open(name, fh, vol, spare))
    requires GetGUID(h, v) in OpenNext(b, name, fh, vol, spare).handles
    ensures var c := OpenNext(b, name, fh, vol, spare); Lists(c, c.handles[GetGUID(h, v)], h, v)
  {
    TargetsEntry(b, name, vol, spare);
    hide GetFileGuid, GetGUID;
    if GetGUID(h, v) == GetGUID(fh, vol) {
      GuidInjective(h, v, fh, vol);
    } else {
      assert Lists(b, b.handles[GetGUID(h, v)], h, v);
    }
  }

  lemma OpenKeepsFile<F>(b: Books<F>, name: string, fh: int, vol: int, spare: F, k: string, h: int)
    requires Agree(b) && Allowed(b, Open(name, fh, vol, spare))
    requires var c := OpenNext(b, name, fh, vol, spare); k in c.open && h in c.entries[c.open[k]].handles
    ensures var c := OpenNext(b, name, fh, vol, spare); LeadsTo(c, h, c.entries[c.open[k]].vol, c.open[k])
  {
    TargetsEntry(b, name, vol, spare);
    var c := OpenNext(b, name, fh, vol, spare);
    var v := c.entries[c.open[k]].vol;
    hide GetFileGuid, GetGUID;
    if GetGUID(h, v) == GetGUID(fh, vol) {
      GuidInjective(h, v, fh, vol);
    }
  }

  lemma OpenKeepsFiles<F>(b: Books<F>, name: string, fh: int, vol: int, spare: F)
    requires Agree(b) && Allowed(b, Open(name, fh, vol, spare))
    ensures Known(OpenNext(b, name, fh, vol, spare)) && FilesOk(OpenNext(b, name, fh, vol, spare))
  {
    TargetsEntry(b, name, vol, spare);
    hide GetFileGuid, GetGUID, HandlesOk;
  }

  lemma OpenAgrees<F>(b: Books<F>, name: string, fh: int, vol: int, spare: F)
    requires Agree(b) && Allowed(b, Open(name, fh, vol, spare))
    ensures Agree(OpenNext(b, name, fh, vol, spare))
  {
    var c := OpenNext(b, name, fh, vol, spare);
    OpenKeepsFiles(b, name, fh, vol, spare);
    hide GetFileGuid, GetGUID, FilesOk, Lists;
    forall h, v | GetGUID(h, v) in c.handles ensures Lists(c, c.handles[GetGUID(h, v)], h, v) {
      OpenKeepsHandle(b, name, fh, vol, spare, h, v);
    }
    forall k, h | k in c.open && h in c.entries[c.open[k]].handles
      ensures LeadsTo(c, h, c.entries[c.open[k]].vol, c.open[k])
    {
      OpenKeepsFile(b, name, fh, vol, spare, k, h);
    }
  }

  lemma CloseKeepsHandle<F>(b: Books<F>, fh: int, vol: int, h: int, v: int)
    requires Agree(b) && GetGUID(fh, vol) in b.handles && GetGUID(h, v) in b.handles
        && GetGUID(h, v) != GetGUID(fh, vol)
    ensures Lists(CloseNext(b, fh, vol), b.handles[GetGUID(h, v)], h, v)
  {
    var f := b.handles[GetGUID(fh, vol)];
    var x := b.handles[GetGUID(h, v)];
    assert Lists(b, f, fh, vol) && Lists(b, x, h, v);
    hide GetGUID, GetFileGuid, HandlesOk;
    if x == f {
      assert v == vol && h != fh;
      assert h in b.entries[f].handles - {fh};
    }
  }

  lemma CloseKeepsFile<F>(b: Books<F>, fh: int, vol: int, k: string, h: int)
    requires Agree(b) && GetGUID(fh, vol) in b.handles
    requires var c := CloseNext(b, fh, vol); k in c.open && h in c.entries[c.open[k]].handles
    ensures var c := CloseNext(b, fh, vol); LeadsTo(c, h, c.entries[c.open[k]].vol, c.open[k])
  {
    var f := b.handles[GetGUID(fh, vol)];
    assert Lists(b, f, fh, vol);
    var v := b.entries[b.open[k]].vol;
    assert LeadsTo(b, h, v, b.open[k]);
    hide GetFileGuid, HandlesOk;
    if GetGUID(h, v) == GetGUID(fh, vol) {
      GuidInjective(h, v, fh, vol);
    }
  }

  lemma CloseKeepsFiles<F>(b: Books<F>, fh: int, vol: int)
    requires Agree(b) && GetGUID(fh, vol) in b.handles
    ensures Known(CloseNext(b, fh, vol)) && FilesOk(CloseNext(b, fh, vol))
  {
    var f := b.handles[GetGUID(fh, vol)];
    assert Lists(b, f, fh, vol);
    hide GetGUID, GetFileGuid, HandlesOk;
  }

  /** Close keeps them in agreement, whatever its Sync returned. */
  lemma CloseAgrees<F>(b: Books<F>, fh: int, vol: int)
    requires Agree(b)
    ensures Agree(CloseNext(b, fh, vol))
  {
    if GetGUID(fh, vol) in b.handles {
      var c := CloseNext(b, fh, vol);
      CloseKeepsFiles(b, fh, vol);
      hide GetFileGuid, GetGUID, FilesOk, Lists;
      forall h, v | GetGUID(h, v) in c.handles ensures Lists(c, c.handles[GetGUID(h, v)], h, v) {
        CloseKeepsHandle(b, fh, vol, h, v);
      }
      forall k, h | k in c.open && h in c.entries[c.open[k]].handles
        ensures LeadsTo(c, h, c.entries[c.open[k]].vol, c.open[k])
      {
        CloseKeepsFile(b, fh, vol, k, h);
      }
    }
  }

  ghost predicate Runs<F>(b: Books<F>, steps: seq<Step<F>>)
    requires Known(b)
    decreases |steps|
  {
    steps == [] || (Allowed(b, steps[0]) && Known(Next(b, steps[0])) && Runs(Next(b, steps[0]), steps[1..]))
  }

  ghost function Exec<F>(b: Books<F>, steps: seq<Step<F>>): Books<F>
    requires Known(b) && Runs(b, steps)
    decreases |steps|
  {
    if steps == [] then b else Exec(Next(b, steps[0]), steps[1..])
  }

  lemma StepAgrees<F>(b: Books<F>, step: Step<F>)
    requires Agree(b) && Allowed(b, step)
    ensures Agree(Next(b, step))
  {
    match step
    case Open(name, fh, vol, spare) => OpenAgrees(b, name, fh, vol, spare);
    case Close(fh, vol) => CloseAgrees(b, fh, vol);
  }

  lemma {:induction false} RunAgrees<F>(b: Books<F>, steps: seq<Step<F>>)
    requires Agree(b) && Runs(b, steps)
    ensures Agree(Exec(b, steps))
    decreases |steps|
  {
    if steps != [] {
      StepAgrees(b, steps[0]);
      RunAgrees(Next(b, steps[0]), steps[1..]);
    }
  }

  /** A new engine's. */
  function NewBooks<F>(): Books<F> {
    Books(map[], map[], map[])
  }

  /** Over every run of Open and Close with handles that are not reused, the registries of a new engine agree. */
  lemma RegistriesAgree<F>(steps: seq<Step<F>>)
    requires Runs(NewBooks<F>(), steps)
    ensures Agree(Exec(NewBooks<F>(), steps))
  {
    RunAgrees(NewBooks<F>(), steps);
  }

  /** Closing a new handle undoes its opening: both registries are what they were. */
  lemma CloseUndoesOpen<F>(b: Books<F>, name: string, fh: int, vol: int, spare: F)
    requires Agree(b) && Allowed(b, Open(name, fh, vol, spare)) && GetGUID(fh, vol) !in b.handles
    ensures var c := OpenNext(b, name, fh, vol, spare); var d := CloseNext(c, fh, vol);
      && d.open == b.open && d.handles == b.handles
      && forall f :: f in b.entries ==> f in d.entries && d.entries[f] == b.entries[f]
  {
    TargetsEntry(b, name, vol, spare);
    var f := Target(b, name, vol, spare);
    hide GetFileGuid, GetGUID;
    if GetFileGuid(name, vol) in b.open {
      assert !LeadsTo(b, fh, vol, f) && fh !in b.entries[f].handles by {
        HandleLeadsToItsFile(b, fh, vol, f);
      }
      assert b.entries[f].handles + {fh} - {fh} == b.entries[f].handles;
    }
  }

  // ----- What each does to handles and names -----

  /** The file is open under that name on that volume. */
  ghost predicate IsOpen<F>(b: Books<F>, name: string, vol: int, f: F) {
    GetFileGuid(name, vol) in b.open && b.open[GetFileGuid(name, vol)] == f
  }

  /** Open makes one handle lead to the named file, which is open then; all other handles and names are as before. */
  lemma OpenLeads<F>(b: Books<F>, name: string, fh: int, vol: int, spare: F)
    requires Known(b) && vol >= 0
    ensures var c := OpenNext(b, name, fh, vol, spare);
      && (exists f :: IsOpen(c, name, vol, f) && LeadsTo(c, fh, vol, f)
            && (f == spare || IsOpen(b, name, vol, f)) && fh in c.entries[f].handles)
      && (forall h, v, f :: (h, v) != (fh, vol) ==> (LeadsTo(c, h, v, f) <==> LeadsTo(b, h, v, f)))
      && (forall n, v, f :: (n, v) != (name, vol) && v >= 0 ==> (IsOpen(c, n, v, f) <==> IsOpen(b, n, v, f)))
  {
    var c := OpenNext(b, name, fh, vol, spare);
    hide GetGUID, GetFileGuid;
    var t := Target(b, name, vol, spare);
    assert IsOpen(c, name, vol, t) && LeadsTo(c, fh, vol, t);
    forall h, v, f | (h, v) != (fh, vol) ensures LeadsTo(c, h, v, f) <==> LeadsTo(b, h, v, f) {
      if GetGUID(h, v) == GetGUID(fh, vol) { GuidInjective(h, v, fh, vol); }
    }
    forall n, v, f | (n, v) != (name, vol) && v >= 0 ensures IsOpen(c, n, v, f) <==> IsOpen(b, n, v, f) {
      FileGuidCollides(n, v, name, vol);
    }
  }

  /** Another handle than (vol, fh) leads to the file. */
  ghost predicate LedToBesides<F>(b: Books<F>, fh: int, vol: int, f: F) {
    exists h, v :: (h, v) != (fh, vol) && LeadsTo(b, h, v, f)
  }

  /** Close takes out its handle and no other, and a file stays open exactly as long as another handle leads to it. */
  lemma CloseLeads<F>(b: Books<F>, fh: int, vol: int)
    requires Agree(b)
    ensures var c := CloseNext(b, fh, vol);
      && (forall h, v, f :: LeadsTo(c, h, v, f) <==> LeadsTo(b, h, v, f) && (h, v) != (fh, vol))
      && (forall n, v, f :: v >= 0 ==> (IsOpen(c, n, v, f) <==> IsOpen(b, n, v, f) && LedToBesides(b, fh, vol, f)))
  {
    var c := CloseNext(b, fh, vol);
    CloseAgrees(b, fh, vol);
    forall h, v, f ensures LeadsTo(c, h, v, f) <==> LeadsTo(b, h, v, f) && (h, v) != (fh, vol) {
      CloseHandle(b, fh, vol, h, v, f);
    }
    forall n, v, f | v >= 0 ensures IsOpen(c, n, v, f) <==> IsOpen(b, n, v, f) && LedToBesides(b, fh, vol, f) {
      CloseName(b, fh, vol, n, v, f);
    }
  }

  lemma CloseHandle<F>(b: Books<F>, fh: int, vol: int, h: int, v: int, f: F)
    requires Known(b)
    ensures LeadsTo(CloseNext(b, fh, vol), h, v, f) <==> LeadsTo(b, h, v, f) && (h, v) != (fh, vol)
  {
    hide GetGUID, GetFileGuid;
    if GetGUID(h, v) == GetGUID(fh, vol) { GuidInjective(h, v, fh, vol); }
  }

  lemma CloseName<F>(b: Books<F>, fh: int, vol: int, n: string, v: int, f: F)
    requires Agree(b) && Agree(CloseNext(b, fh, vol)) && v >= 0
    ensures IsOpen(CloseNext(b, fh, vol), n, v, f) <==> IsOpen(b, n, v, f) && LedToBesides(b, fh, vol, f)
  {
    var c := CloseNext(b, fh, vol);
    if IsOpen(c, n, v, f) {
      OpenIsLedTo(c, n, v, f);
      var h :| LeadsTo(c, h, v, f);
      CloseHandle(b, fh, vol, h, v, f);
      hide GetGUID, GetFileGuid;
      assert IsOpen(b, n, v, f);
    }
    if IsOpen(b, n, v, f) && LedToBesides(b, fh, vol, f) {
      var h, w :| (h, w) != (fh, vol) && LeadsTo(b, h, w, f);
      CloseHandle(b, fh, vol, h, w, f);
      HandleLeadsToItsFile(c, h, w, f);
      hide GetGUID, GetFileGuid;
    }
  }

  lemma OpenIsLedTo<F>(b: Books<F>, n: string, v: int, f: F)
    requires Agree(b) && v >= 0 && IsOpen(b, n, v, f)
    ensures exists h :: LeadsTo(b, h, v, f)
  {
    var e := b.entries[f];
    FileGuidCollides(e.name, e.vol, n, v);
    var h := AHandle(e.handles);
    hide GetGUID, GetFileGuid;
    assert LeadsTo(b, h, e.vol, f);
  }

  /**
   * CloseFile takes out the keys of its own file and no others: every key that led to another file still
   * leads to it.  Of the open files it takes out what is under the plain name, if anything is.
   */
  lemma CloseFileLeads<F>(b: Books<F>, name: string, vol: int, f: F)
    requires Agree(b) && vol >= 0 && IsOpen(b, name, vol, f)
    ensures var c := CloseFileNext(b, name, vol);
      && (forall g :: g in c.handles <==> g in b.handles && b.handles[g] != f)
      && (forall g :: g in c.handles ==> c.handles[g] == b.handles[g])
      && (forall k :: k in c.open <==> k in b.open && k != name)
      && (forall k :: k in c.open ==> c.open[k] == b.open[k])
  {
    var c := CloseFileNext(b, name, vol);
    var e := b.entries[f];
    FileGuidCollides(e.name, e.vol, name, vol);
    forall g | g in b.handles ensures g in c.handles <==> b.handles[g] != f {
      var h, v :| g == GetGUID(h, v);
      hide GetGUID, GetFileGuid;
      assert Lists(b, b.handles[g], h, v);
      forall fh | fh in e.handles ensures LeadsTo(b, fh, e.vol, f) {
      }
    }
  }

  /** A file's composite key is never its plain name. */
  lemma KeyIsLonger(name: string, vol: int)
    ensures |GetFileGuid(name, vol)| > |name|
  {
  }

  lemma AHandle(handles: set<int>) returns (fh: int)
    requires handles != {}
    ensures fh in handles
  {
    assert (forall x :: x !in handles) ==> handles == {};
    fh :| fh in handles;
  }

  /** CloseFile on an open file always breaks the agreement: the file stays open, and its handles lead nowhere. */
  lemma CloseFileBreaksAgreement<F>(b: Books<F>, name: string, vol: int)
    requires Agree(b) && vol >= 0 && GetFileGuid(name, vol) in b.open
    ensures var c := CloseFileNext(b, name, vol);
      Known(c) && GetFileGuid(name, vol) in c.open && !Agree(c)
  {
    var f := b.open[GetFileGuid(name, vol)];
    var e := b.entries[f];
    FileGuidCollides(e.name, e.vol, name, vol);
    KeyIsLonger(name, vol);
    var c := CloseFileNext(b, name, vol);
    var fh := AHandle(e.handles);
    assert Lists(c, f, fh, vol) && !LeadsTo(c, fh, vol, f);
  }

  /** CloseFile takes another file out of the registry. */
  ghost predicate DropsAnother<F>(b: Books<F>, name: string, vol: int)
    requires Known(b)
  {
    exists k :: k in b.open && k != GetFileGuid(name, vol) && k !in CloseFileNext(b, name, vol).open
  }

  /** CloseFile closes another file exactly when the plain name of its own file is another file's key. */
  lemma CloseFileDropsAnotherIff<F>(b: Books<F>, name: string, vol: int)
    requires Agree(b) && vol >= 0 && GetFileGuid(name, vol) in b.open
    ensures DropsAnother(b, name, vol) <==> name in b.open
  {
    var e := b.entries[b.open[GetFileGuid(name, vol)]];
    FileGuidCollides(e.name, e.vol, name, vol);
    KeyIsLonger(name, vol);
    hide GetFileGuid;
    if name in b.open {
      assert name !in CloseFileNext(b, name, vol).open;
    }
  }

  /** Two files opened on a new engine, "a" on volume 2 and "a-2" on volume 7. */
  ghost function TwoOpens<F>(f: F, g: F): seq<Step<F>> {
    [Open("a", 0, 2, f), Open("a-2", 1, 7, g)]
  }

  lemma KeysOfTwo()
    ensures GetFileGuid("a", 2) == "a-2" && GetFileGuid("a-2", 7) == "a-2-7"
    ensures GetGUID(0, 2) == "2-0" && GetGUID(1, 7) == "7-1"
  {
    assert Decimal(2) == "2" && Decimal(7) == "7" && Decimal(0) == "0" && Decimal(1) == "1";
    assert GetFileGuid("a", 2) == "a" + "-" + "2" == "a-2";
    assert GetFileGuid("a-2", 7) == "a-2" + "-" + "7" == "a-2-7";
    assert GetGUID(0, 2) == "2" + "-" + "0" == "2-0";
    assert GetGUID(1, 7) == "7" + "-" + "1" == "7-1";
  }

  /** It does happen: after these two, CloseFile of "a-2" on volume 7 takes out "a" and leaves "a-2" open. */
  lemma CloseFileDropsAnother<F>(f: F, g: F)
    requires f != g
    ensures Runs(NewBooks<F>(), TwoOpens(f, g))
    ensures var b := Exec(NewBooks<F>(), TwoOpens(f, g));
      && Agree(b) && DropsAnother(b, "a-2", 7)
      && GetFileGuid("a", 2) in b.open && b.open[GetFileGuid("a", 2)] == f
      && GetFileGuid("a", 2) !in CloseFileNext(b, "a-2", 7).open
      && GetFileGuid("a-2", 7) in CloseFileNext(b, "a-2", 7).open
  {
    KeysOfTwo();
    hide GetFileGuid, GetGUID;
    var b0 := NewBooks<F>();
    var b1 := OpenNext(b0, "a", 0, 2, f);
    assert Agree(b0) && Allowed(b0, Open("a", 0, 2, f));
    OpenAgrees(b0, "a", 0, 2, f);
    assert Allowed(b1, Open("a-2", 1, 7, g));
    OpenAgrees(b1, "a-2", 1, 7, g);
    var b2 := OpenNext(b1, "a-2", 1, 7, g);
    var steps := TwoOpens(f, g);
    assert steps[1..] == [Open("a-2", 1, 7, g)] && steps[1..][1..] == [];
    assert Runs(b2, []) && Exec(b2, []) == b2;
    assert Runs(b1, steps[1..]) && Exec(b1, steps[1..]) == b2;
    assert Runs(b0, steps) && Exec(b0, steps) == b2;
    CloseFileDropsAnotherIff(b2, "a-2", 7);
  }
}
