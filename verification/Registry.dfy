/** The engine's entry points: they resolve a handle or a name to a file in the two registries and act on it. */
module Registry {
  import opened Bytes
  import opened RegistryKeys
  import opened Registers
  import opened Engine
  import opened Histories
  import FileMachine
  import FileInvariants
  import Flush
  import Storage
  import Transfer
  import ViewRefinement
  import WritePieces

  datatype Failure = HandleNotFound | CacheSize | FileFailed | SyncFailed | Panicked

  type History = seq<FileMachine.Step<DedupeBuffer?>>

  class DedupeEngine {
    const chunkSize: int
    const bufferSize: int
    const deduper: Flush.Deduper
    const chunker: Bytes -> seq<Flush.Next>
    var openFiles: map<string, DedupeFile>
    var fileHandles: map<string, DedupeFile>
    ghost var books: Books<DedupeFile?>
    ghost var files: set<DedupeFile>

    constructor (chunkSize: int, bufferSize: int, deduper: Flush.Deduper, chunker: Bytes -> seq<Flush.Next>)
      ensures Linked() && Apart() && HandlesOwned() && books == NewBooks()
    {
      this.chunkSize, this.bufferSize, this.deduper, this.chunker := chunkSize, bufferSize, deduper, chunker;
      openFiles, fileHandles := map[], map[];
      books, files := NewBooks(), {};
    }

    /** The objects are what `books` says; a file is in use by its handles even when it is no longer open. */
    ghost predicate Linked()
      reads this`openFiles, this`fileHandles, this`books, this`files, files`fileHandles
    {
      && openFiles == books.open && fileHandles == books.handles && Known(books) && books.entries.Keys == files
      && forall f :: f in files ==> books.entries[f] == Entry(f.fileName, f.pVolumeID, f.fileHandles)
    }

    /** The files share the connection and nothing else. */
    ghost predicate Apart()
      reads this`files, files`bufs
    {
      SetApart(files)
    }

    ghost predicate SetApart(fs: set<DedupeFile>)
      reads fs`bufs
    {
      && (forall f :: f in fs ==> f.deduper == deduper)
      && forall f, g :: f in fs && g in fs && f != g ==> NoSharedBuffer(f, g)
    }

    ghost predicate NoSharedBuffer(f: DedupeFile, g: DedupeFile)
      reads f`bufs, g`bufs
    {
      forall b, c :: b in f.bufs && c in g.bufs ==> b != c && b.buffer != c.buffer
    }

    lemma OneMoreApart(fs: set<DedupeFile>, file: DedupeFile)
      requires SetApart(fs) && file.deduper == deduper && file.bufs == {}
      ensures SetApart(fs + {file})
    {
    }

    /** The service gave every registered handle out for the file it leads to. */
    ghost predicate HandlesOwned()
      reads this`fileHandles
    {
      AllOwned(fileHandles)
    }

    /** The service's file of that name, and the handle given out for it. */
    ghost predicate GivenFor(fileName: string, fileHandle: int, volumeID: int) {
      deduper.remote.net.owner(fileHandle, volumeID) == Storage.FileKey(fileName, volumeID)
    }

    /** Different open files are different files of the service. */
    lemma DistinctFiles(f: DedupeFile, g: DedupeFile)
      requires Linked() && Agree(books) && f in openFiles.Values && g in openFiles.Values && f != g
      ensures f.File() != g.File()
    {
      assert KeyOf(books.entries[f]) in books.open && books.open[KeyOf(books.entries[f])] == f;
      assert KeyOf(books.entries[g]) in books.open && books.open[KeyOf(books.entries[g])] == g;
    }

    /** Chunk size, codec and server are usable. */
    ghost predicate Configured()
      reads deduper.remote
    {
      && 0 < chunkSize < TWO_TO_THE_31
      && Storage.Lossless(deduper.codec) && Storage.CollisionFree(deduper.codec)
      && Storage.Honest(deduper.codec, deduper.remote.net) && Storage.StoreOk(deduper.codec, deduper.remote.state)
      && forall x :: Flush.ChunkerOk(chunker(x), 0, |x|)
    }

    /** The file that is open under the key of a name is the service's file of that name. */
    lemma KeyedFile(fileName: string, volumeID: int)
      requires Linked() && Agree(books) && volumeID >= 0 && GetFileGuid(fileName, volumeID) in openFiles
      ensures openFiles[GetFileGuid(fileName, volumeID)].File() == Storage.FileKey(fileName, volumeID)
    {
      var e := books.entries[books.open[GetFileGuid(fileName, volumeID)]];
      FileGuidCollides(e.name, e.vol, fileName, volumeID);
    }

    /** Arrays are neither files nor the engine. */
    lemma ArraysAreArrays()
      ensures forall g, o :: g in files && o in g.Arrays() ==> o != this
      ensures forall g, o, f: DedupeFile :: g in files && o in g.Arrays() && f in files ==> o != f
    {
    }

    /** What Open does once it has the file: the one that was open under the key, or the new one. */
    method Register(file: DedupeFile, fileName: string, fileHandle: int, volumeID: int, ghost spare: DedupeFile?)
      requires Linked() && file == Target(books, fileName, volumeID, spare)
      requires GetFileGuid(fileName, volumeID) !in openFiles ==>
                 file !in files && file.fileName == fileName && file.pVolumeID == volumeID && file.fileHandles == {}
      modifies this`openFiles, this`fileHandles, this`books, this`files, file`fileHandles
      ensures Linked() && files == old(files) + {file}
      ensures books == OpenNext(old(books), fileName, fileHandle, volumeID, spare)
      ensures fileHandles == old(fileHandles)[GetGUID(fileHandle, volumeID) := file]
    {
      hide GetFileGuid, GetGUID;
      openFiles := openFiles[GetFileGuid(fileName, volumeID) := file];
      file.fileHandles := file.fileHandles + {fileHandle};
      fileHandles := fileHandles[GetGUID(fileHandle, volumeID) := file];
      files := files + {file};
      books := OpenNext(books, fileName, fileHandle, volumeID, spare);
    }

    /** A handle for a file that is open already. */
    method OpenKnown(file: DedupeFile, fileName: string, fileHandle: int, volumeID: int)
      requires Linked() && Apart()
      requires GetFileGuid(fileName, volumeID) in openFiles && openFiles[GetFileGuid(fileName, volumeID)] == file
      modifies this`openFiles, this`fileHandles, this`books, this`files, file`fileHandles
      ensures Linked() && Apart() && files == old(files)
      ensures books == OpenNext(old(books), fileName, fileHandle, volumeID, null)
      ensures old(HandlesOwned()) && file.Owns(fileHandle) ==> HandlesOwned()
      ensures forall g :: g in old(files) && old(g.Usable()) ==> g.Usable()
    {
      hide GetFileGuid, GetGUID, OpenNext, AllOwned, DedupeFile.Settled, DedupeFile.Matches;
      assert files + {file} == files;
      if HandlesOwned() && file.Owns(fileHandle) {
        OwnedMore(fileHandles, fileHandle, volumeID, file);
      }
      ArraysAreArrays();
      Register(file, fileName, fileHandle, volumeID, null);
    }

    /** A new file. */
    method OpenNew(fileName: string, fileHandle: int, volumeID: int) returns (file: DedupeFile)
      requires Linked() && Configured() && Apart() && bufferSize > 0
      requires GetFileGuid(fileName, volumeID) !in openFiles
      modifies this`openFiles, this`fileHandles, this`books, this`files
      ensures Linked() && Apart() && files == old(files) + {file}
      ensures books == OpenNext(old(books), fileName, fileHandle, volumeID, file)
      ensures fresh(file) && file.Usable() && file.trace == []
      ensures file.File() == Storage.FileKey(fileName, volumeID)
          && file.stored == Storage.Blocks(deduper.remote.state, file.File())
      ensures file.chunkSize == chunkSize && file.bufferSize == bufferSize && file.chunker == chunker
      ensures old(HandlesOwned()) && GivenFor(fileName, fileHandle, volumeID) ==> HandlesOwned()
      ensures forall g :: g in old(files) && old(g.Usable()) ==> g.Usable()
    {
      hide GetFileGuid, GetGUID, OpenNext, AllOwned, SetApart, Configured, DedupeFile.Settled, DedupeFile.Matches;
      ArraysAreArrays();
      file := NewFile(fileName, volumeID);
      if HandlesOwned() && file.Owns(fileHandle) {
        OwnedMore(fileHandles, fileHandle, volumeID, file);
      }
      assert this !in file.Arrays() && file !in file.Arrays();
      OneMoreApart(files, file);
      Register(file, fileName, fileHandle, volumeID, file);
    }

    method NewFile(fileName: string, volumeID: int) returns (file: DedupeFile)
      requires Configured() && bufferSize > 0
      ensures fresh(file) && file.Usable() && file.trace == [] && file.bufs == {} && file.fileHandles == {}
      ensures file.deduper == deduper && file.fileName == fileName && file.pVolumeID == volumeID
      ensures file.chunkSize == chunkSize && file.bufferSize == bufferSize && file.chunker == chunker
      ensures file.stored == Storage.Blocks(deduper.remote.state, file.File())
    {
      file := new DedupeFile(fileName, volumeID, chunkSize, bufferSize, deduper, chunker);
      file.UsableIsValid();
    }

    /** Open; the cache refuses a size that is not positive, and then nothing is registered. */
    method Open(fileName: string, fileHandle: int, volumeID: int)
        returns (r: Option<Failure>, ghost spare: DedupeFile?)
      requires Linked() && Configured() && Apart()
      modifies this`openFiles, this`fileHandles, this`books, this`files, files`fileHandles
      ensures Linked() && Apart() && old(files) <= files && spare !in old(files)
      ensures r == if GetFileGuid(fileName, volumeID) in old(openFiles) || bufferSize > 0 then None
          else Some(CacheSize)
      ensures books == if r.Some? then old(books) else OpenNext(old(books), fileName, fileHandle, volumeID, spare)
      ensures spare != null ==>
                && r.None? && fresh(spare) && spare.Usable() && spare.trace == []
                && spare.File() == Storage.FileKey(fileName, volumeID)
                && spare.chunkSize == chunkSize && spare.bufferSize == bufferSize && spare.chunker == chunker
                && spare.stored == Storage.Blocks(deduper.remote.state, spare.File())
      ensures forall g :: g in old(files) && old(g.Usable()) ==> g.Usable()
      ensures old(HandlesOwned()) && old(Agree(books)) && volumeID >= 0 && GivenFor(fileName, fileHandle, volumeID) ==>
                HandlesOwned()
    {
      hide GetFileGuid, GetGUID, OpenNext, AllOwned, DedupeFile.Settled, DedupeFile.Matches;
      r, spare := None, null;
      var key := GetFileGuid(fileName, volumeID);
      if key in openFiles {
        if Agree(books) && volumeID >= 0 {
          KeyedFile(fileName, volumeID);
        }
        OpenKnown(openFiles[key], fileName, fileHandle, volumeID);
      } else if bufferSize <= 0 {
        r := Some(CacheSize);
      } else {
        spare := OpenNew(fileName, fileHandle, volumeID);
      }
    }

    /** What acting on a file may change. */
    ghost function Touched(f: DedupeFile): set<object>
      reads f`bufs
    {
      {f, f.deduper.remote} + f.bufs + f.Arrays()
    }

    /** The file that a handle leads to, or null. */
    function OfHandle(fileHandle: int, volumeID: int): (f: DedupeFile?)
      reads this`fileHandles
    {
      var key := GetGUID(fileHandle, volumeID);
      if key in fileHandles then fileHandles[key] else null
    }

    /** The open file of that name, or null. */
    function OfName(fileName: string, volumeID: int): (f: DedupeFile?)
      reads this`openFiles
    {
      var key := GetFileGuid(fileName, volumeID);
      if key in openFiles then openFiles[key] else null
    }

    /** What a method that acts on f, if there is one, may change of it. */
    ghost function Part(f: DedupeFile?): set<object>
      reads if f == null then {} else {f}
    {
      if f == null then {} else Touched(f)
    }

    /** g is another file of the service than f. */
    ghost predicate Other(g: DedupeFile, f: DedupeFile?) {
      f == null || g.File() != f.File()
    }

    /** What acting on f may change is no part of another file, and the engine is no part of any. */
    lemma FilesApart(f: DedupeFile)
      requires Apart() && f in files
      ensures forall g :: g in files && g != f ==>
                && g !in Touched(f) && (forall o :: o in g.Arrays() ==> o !in Touched(f))
                && (forall o: object :: o in g.bufs ==> o !in Touched(f))
      ensures forall g, o :: g in files && o in g.Arrays() ==> o != this
    {
    }

    /** What nil promises: no error, and nothing waits to be flushed. */
    ghost predicate Clean(f: DedupeFile)
      reads f`err, f`flushingBuffers
    {
      f.err.None? && f.flushingBuffers == map[]
    }

    /** Some of the pool's work on one of the files; the pool serves all of them. */
    method PoolTurn(f: DedupeFile)
      requires Linked() && Apart() && f in files && f.Usable()
      modifies f`flushingBuffers, f`jobs, f`err, f`state, f`trace, f.deduper.remote, f.bufs
      ensures Linked() && Apart() && f.Usable() && Histories.ByWorkers(old(f.trace), f.trace)
      ensures forall g :: g in old(files) && Other(g, f) && old(g.Usable()) ==> g.Usable()
    {
      hide Histories.ByWorkers;
      hide DedupeFile.Settled, DedupeFile.Matches, Storage.OthersKept;
      FilesApart(f);
      f.WorkUsable();
      f.ServerInOrder(deduper.remote.state);
      forall g | g in files && Other(g, f) && old(g.Usable()) ensures g.Usable() {
        g.StillMatches(old(deduper.remote.state), deduper.remote.state, f.File());
      }
    }

    // ----- Sync and SyncFile -----

    /**
     * The history after a Sync of f that found no error: one Sync, nil or not, or, for a file without handles,
     * only the workers' steps.  nil leaves the file clean; otherwise it has an error, or the wait gave up.
     */
    ghost predicate SyncResult(f: DedupeFile, handled: bool, was: History, nil: bool)
      reads f`err, f`flushingBuffers, f`trace
    {
      && (if handled then Histories.Synced(was, f.trace, nil) else Histories.ByWorkers(was, f.trace))
      && (nil ==> Clean(f)) && (!nil ==> f.err.Some? || f.GaveUp(was, f.trace, handled))
    }

    /** One that found an error only returned it. */
    ghost predicate StillFailed(f: DedupeFile, was: History, r: Option<Failure>)
      reads f`err, f`trace
    {
      r.Some? && f.err.Some? && f.trace == was
    }

    /** After a Sync that returned nil: if the history kept the file exact, the service has the flat file. */
    ghost predicate FlatOnServer(f: DedupeFile)
      reads f`trace, f.deduper.remote
    {
      && f.trace != [] && f.chunkSize > 0
      && var steps := f.trace[..|f.trace| - 1];
         var blocks := Storage.Blocks(f.deduper.remote.state, f.File());
         ViewRefinement.ExactRun(f.Start(), steps) ==> forall p: nat ::
           ViewRefinement.ServerByte(blocks, f.chunkSize, p)
             == ViewRefinement.Replay(steps, p, ViewRefinement.ServerByte(f.stored, f.chunkSize, p))
    }

    lemma SyncedIsFlat(f: DedupeFile, was: History)
      requires f.Usable() && Histories.Synced(was, f.trace, true)
      ensures FlatOnServer(f)
    {
      f.UsableIsValid();
      var steps := f.trace[..|f.trace| - 1];
      assert f.trace == steps + [FileMachine.SyncReturn];
      assert f.chunkSize > 0;
      hide DedupeFile.Settled, DedupeFile.Matches, DedupeFile.Good, DedupeFile.Environment;
      hide ViewRefinement.ExactRun, ViewRefinement.ServerByte, ViewRefinement.Replay, Storage.Blocks;
      if ViewRefinement.ExactRun(f.Start(), steps) {
        Transfer.SyncedIsFlatEverywhere(f, steps);
      }
    }

    method SyncOne(f: DedupeFile) returns (r: Option<Failure>)
      requires f.Usable() && f.deduper == deduper
      modifies f`cache, f`flushingBuffers, f`jobs, f`err, f`state, f`trace, f.bufs, f.deduper.remote
      ensures f.Usable() && (r == None || r == Some(SyncFailed))
      ensures if old(f.err.Some?) then StillFailed(f, old(f.trace), r)
        else SyncResult(f, f.fileHandles != {}, old(f.trace), r.None?)
      ensures r.None? && f.fileHandles != {} ==> FlatOnServer(f)
      ensures Storage.OthersKept(old(deduper.remote.state), deduper.remote.state, f.File())
    {
      hide Histories.Synced, Histories.ByWorkers, FlatOnServer;
      hide DedupeFile.Settled, DedupeFile.Matches, DedupeFile.GaveUp, Storage.OthersKept;
      var nil := f.SyncUsable();
      r := if nil then None else Some(SyncFailed);
      if nil && f.fileHandles != {} {
        SyncedIsFlat(f, old(f.trace));
      }
    }

    method SyncHeld(f: DedupeFile) returns (r: Option<Failure>)
      requires Linked() && Apart() && f in files && f.Usable()
      modifies f`cache, f`flushingBuffers, f`jobs, f`err, f`state, f`trace, f.bufs, f.deduper.remote
      ensures Linked() && Apart() && f.Usable() && (r == None || r == Some(SyncFailed))
      ensures if old(f.err.Some?) then StillFailed(f, old(f.trace), r)
        else SyncResult(f, f.fileHandles != {}, old(f.trace), r.None?)
      ensures r.None? && f.fileHandles != {} ==> FlatOnServer(f)
      ensures forall g :: g in old(files) && Other(g, f) && old(g.Usable()) ==> g.Usable()
    {
      hide SyncResult, FlatOnServer;
      hide DedupeFile.Settled, DedupeFile.Matches, Storage.OthersKept;
      FilesApart(f);
      r := SyncOne(f);
      f.ServerInOrder(deduper.remote.state);
      forall g | g in files && Other(g, f) && old(g.Usable()) ensures g.Usable() {
        g.StillMatches(old(deduper.remote.state), deduper.remote.state, f.File());
      }
    }

    /** Sync by handle.  A handle that is not registered is no error. */
    method Sync(fileHandle: int, volumeID: int) returns (r: Option<Failure>)
      requires Linked() && Apart()
      requires var f := OfHandle(fileHandle, volumeID); f != null ==> f in files && f.Usable()
      modifies Part(OfHandle(fileHandle, volumeID))
      ensures Linked() && Apart()
      ensures var f := old(OfHandle(fileHandle, volumeID));
        if f == null then r == None
        else
          && f.Usable() && (r == None || r == Some(SyncFailed))
          && (if old(Failed(OfHandle(fileHandle, volumeID)))
              then StillFailed(f, old(HistoryOf(OfHandle(fileHandle, volumeID))), r)
              else SyncResult(f, f.fileHandles != {}, old(HistoryOf(OfHandle(fileHandle, volumeID))), r.None?))
          && (r.None? && f.fileHandles != {} ==> FlatOnServer(f))
      ensures forall g :: g in old(files) && Other(g, old(OfHandle(fileHandle, volumeID))) && old(g.Usable()) ==>
                g.Usable()
    {
      hide SyncResult, FlatOnServer, GetGUID;
      hide DedupeFile.Settled, DedupeFile.Matches;
      r := None;
      var f := OfHandle(fileHandle, volumeID);
      if f != null {
        r := SyncHeld(f);
      }
    }

    /** What SyncFile comes to: a file without handles is left alone. */
    ghost predicate FileSyncResult(f: DedupeFile, failed: bool, was: History, r: Option<Failure>)
      reads f`err, f`flushingBuffers, f`trace, f`fileHandles
    {
      if failed then StillFailed(f, was, r)
      else if f.fileHandles != {} then SyncResult(f, true, was, r.None?)
      else r == None && f.trace == was && f.err.None?
    }

    method SyncFound(f: DedupeFile) returns (r: Option<Failure>)
      requires f.Usable() && f.deduper == deduper
      modifies f`cache, f`flushingBuffers, f`jobs, f`err, f`state, f`trace, f.bufs, f.deduper.remote
      ensures f.Usable() && (r == None || r == Some(SyncFailed))
      ensures FileSyncResult(f, old(f.err.Some?), old(f.trace), r)
      ensures r.None? && f.fileHandles != {} ==> FlatOnServer(f)
      ensures Storage.OthersKept(old(deduper.remote.state), deduper.remote.state, f.File())
    {
      hide SyncResult, FlatOnServer;
      hide DedupeFile.Settled, DedupeFile.Matches;
      if f.fileHandles != {} {
        r := SyncOne(f);
      } else {
        r := if f.err.Some? then Some(SyncFailed) else None;
      }
    }

    method SyncNamed(f: DedupeFile) returns (r: Option<Failure>)
      requires Linked() && Apart() && f in files && f.Usable()
      modifies f`cache, f`flushingBuffers, f`jobs, f`err, f`state, f`trace, f.bufs, f.deduper.remote
      ensures Linked() && Apart() && f.Usable() && (r == None || r == Some(SyncFailed))
      ensures FileSyncResult(f, old(f.err.Some?), old(f.trace), r)
      ensures r.None? && f.fileHandles != {} ==> FlatOnServer(f)
      ensures forall g :: g in old(files) && Other(g, f) && old(g.Usable()) ==> g.Usable()
    {
      hide FileSyncResult, FlatOnServer;
      hide DedupeFile.Settled, DedupeFile.Matches, Storage.OthersKept;
      FilesApart(f);
      r := SyncFound(f);
      f.ServerInOrder(deduper.remote.state);
      forall g | g in files && Other(g, f) && old(g.Usable()) ensures g.Usable() {
        g.StillMatches(old(deduper.remote.state), deduper.remote.state, f.File());
      }
    }

    /** SyncFile finds the file by its name; without handles it does not even wait. */
    method SyncFile(fileName: string, volumeID: int) returns (r: Option<Failure>)
      requires Linked() && Apart()
      requires var f := OfName(fileName, volumeID); f != null ==> f in files && f.Usable()
      modifies Part(OfName(fileName, volumeID))
      ensures Linked() && Apart()
      ensures var f := old(OfName(fileName, volumeID));
        if f == null then r == None
        else
          && f.Usable() && (r == None || r == Some(SyncFailed))
          && FileSyncResult(f, old(Failed(OfName(fileName, volumeID))),
                 old(HistoryOf(OfName(fileName, volumeID))), r)
          && (r.None? && f.fileHandles != {} ==> FlatOnServer(f))
      ensures forall g :: g in old(files) && Other(g, old(OfName(fileName, volumeID))) && old(g.Usable()) ==> g.Usable()
    {
      hide FileSyncResult, FlatOnServer, GetFileGuid;
      hide DedupeFile.Settled, DedupeFile.Matches;
      r := None;
      var f := OfName(fileName, volumeID);
      if f != null {
        r := SyncNamed(f);
      }
    }

    // ----- Close and CloseFile -----

    /** A registered handle of registries that agree is on its file's list, so Close of it submits the cache. */
    lemma HandleIsListed(fileHandle: int, volumeID: int)
      requires Linked() && Agree(books) && OfHandle(fileHandle, volumeID) != null
      ensures HasHandles(OfHandle(fileHandle, volumeID))
    {
      var f := OfHandle(fileHandle, volumeID);
      HandleLeadsToItsFile(books, fileHandle, volumeID, f);
      assert fileHandle in books.entries[f].handles;
    }

    /**
     * What Close makes of the file: exactly one Sync, which is what it returns, but for a file error, which it
     * reports as such.
     */
    ghost predicate CloseResult(f: DedupeFile, handled: bool, failed: bool, was: History, r: Option<Failure>)
      reads f`err, f`flushingBuffers, f`trace
    {
      && (r == Some(FileFailed) <==> f.err.Some?)
      && if failed then StillFailed(f, was, r) else SyncResult(f, handled, was, r.None?)
    }

    /**
     * Close: the file is synced, and the handle is taken out whether that succeeded or not, and the file with its
     * last handle.
     */
    method Close(fileHandle: int, volumeID: int) returns (r: Option<Failure>)
      requires Linked() && Apart()
      requires var f := OfHandle(fileHandle, volumeID); f != null ==> f in files && f.Usable()
      modifies this`openFiles, this`fileHandles, this`books, Part(OfHandle(fileHandle, volumeID))
      ensures Linked() && Apart() && books == CloseNext(old(books), fileHandle, volumeID)
      ensures old(HandlesOwned()) ==> HandlesOwned()
      ensures var f := old(OfHandle(fileHandle, volumeID));
        if f == null then r == None
        else
          && f.Usable()
          && CloseResult(f, old(HasHandles(OfHandle(fileHandle, volumeID))),
                 old(Failed(OfHandle(fileHandle, volumeID))), old(HistoryOf(OfHandle(fileHandle, volumeID))), r)
          && (r.None? && old(HasHandles(OfHandle(fileHandle, volumeID))) ==> FlatOnServer(f))
      ensures forall g :: g in old(files) && Other(g, old(OfHandle(fileHandle, volumeID))) && old(g.Usable()) ==>
                g.Usable()
    {
      hide GetGUID, GetFileGuid, CloseNext, CloseResult, FlatOnServer;
      hide DedupeFile.Settled, DedupeFile.Matches;
      r := None;
      var f := OfHandle(fileHandle, volumeID);
      if f != null {
        r := CloseHeld(f, fileHandle, volumeID);
      } else {
        NothingToClose(books, fileHandle, volumeID);
      }
    }

    method CloseHeld(f: DedupeFile, fileHandle: int, volumeID: int) returns (r: Option<Failure>)
      requires Linked() && Apart() && f in files && OfHandle(fileHandle, volumeID) == f && f.Usable()
      modifies this`openFiles, this`fileHandles, this`books, f`fileHandles, f`cache, f`flushingBuffers, f`jobs,
          f`err, f`state, f`trace, f.bufs, f.deduper.remote
      ensures Linked() && Apart() && books == CloseNext(old(books), fileHandle, volumeID)
      ensures old(HandlesOwned()) ==> HandlesOwned()
      ensures f.Usable() && CloseResult(f, old(f.fileHandles) != {}, old(f.err).Some?, old(f.trace), r)
      ensures r.None? && old(f.fileHandles) != {} ==> FlatOnServer(f)
      ensures forall g :: g in old(files) && Other(g, f) && old(g.Usable()) ==> g.Usable()
    {
      hide GetGUID, GetFileGuid, CloseNext, CloseResult, FlatOnServer;
      hide DedupeFile.Settled, DedupeFile.Matches, Storage.OthersKept;
      FilesApart(f);
      r := CloseFound(f, fileHandle, volumeID);
      f.ServerInOrder(deduper.remote.state);
      forall g | g in files && Other(g, f) && old(g.Usable()) ensures g.Usable() {
        g.StillMatches(old(deduper.remote.state), deduper.remote.state, f.File());
      }
    }

    method CloseFound(file: DedupeFile, fileHandle: int, volumeID: int) returns (r: Option<Failure>)
      requires Linked() && Apart() && file in files && OfHandle(fileHandle, volumeID) == file && file.Usable()
      modifies this`openFiles, this`fileHandles, this`books, file`fileHandles, file`cache, file`flushingBuffers,
          file`jobs, file`err, file`state, file`trace, file.bufs, file.deduper.remote
      ensures Linked() && books == CloseNext(old(books), fileHandle, volumeID)
      ensures fileHandles == old(fileHandles) - {GetGUID(fileHandle, volumeID)}
      ensures file.Usable() && CloseResult(file, old(file.fileHandles) != {}, old(file.err).Some?, old(file.trace), r)
      ensures r.None? && old(file.fileHandles) != {} ==> FlatOnServer(file)
      ensures Storage.OthersKept(old(deduper.remote.state), deduper.remote.state, file.File())
    {
      hide GetGUID, GetFileGuid, CloseResult, FlatOnServer;
      hide DedupeFile.Settled, DedupeFile.Matches, Storage.OthersKept;
      FilesApart(file);
      r := SyncAndDrop(file, fileHandle);
      Unregister(file, fileHandle, volumeID);
    }

    /** Close's part on the file: Sync, and the handle off its list. */
    method SyncAndDrop(file: DedupeFile, fileHandle: int) returns (r: Option<Failure>)
      requires file.Usable() && file.deduper == deduper
      modifies file`fileHandles, file`cache, file`flushingBuffers, file`jobs, file`err, file`state, file`trace,
          file.bufs, file.deduper.remote
      ensures file.Usable() && CloseResult(file, old(file.fileHandles) != {}, old(file.err).Some?, old(file.trace), r)
      ensures r.None? && old(file.fileHandles) != {} ==> FlatOnServer(file)
      ensures file.fileHandles == old(file.fileHandles) - {fileHandle}
      ensures Storage.OthersKept(old(deduper.remote.state), deduper.remote.state, file.File())
    {
      hide DedupeFile.Settled, DedupeFile.Matches, DedupeFile.GaveUp, Storage.OthersKept, FlatOnServer,
          Histories.Synced, Histories.ByWorkers;
      r := SyncOne(file);
      file.DropHandle(fileHandle);
      if file.err.Some? {
        r := Some(FileFailed);
      }
    }

    /** Close's part on the registries. */
    method Unregister(file: DedupeFile, fileHandle: int, volumeID: int)
      requires openFiles == books.open && fileHandles == books.handles && Known(books)
      requires OfHandle(fileHandle, volumeID) == file
      requires file.fileName == books.entries[file].name
          && file.fileHandles == books.entries[file].handles - {fileHandle}
      modifies this`openFiles, this`fileHandles, this`books
      ensures books == CloseNext(old(books), fileHandle, volumeID) && openFiles == books.open
          && fileHandles == books.handles == old(fileHandles) - {GetGUID(fileHandle, volumeID)}
    {
      hide GetGUID, GetFileGuid;
      fileHandles := fileHandles - {GetGUID(fileHandle, volumeID)};
      if file.fileHandles == {} {
        openFiles := openFiles - {GetFileGuid(file.fileName, volumeID)};
      }
      books := CloseNext(books, fileHandle, volumeID);
    }

    /** What CloseFile makes of the file: what SyncFile does, but for a file error, which it reports as such. */
    ghost predicate CloseFileResult(f: DedupeFile, failed: bool, was: History, r: Option<Failure>)
      reads f`err, f`flushingBuffers, f`trace, f`fileHandles
    {
      (r == Some(FileFailed) <==> f.err.Some?) && FileSyncResult(f, failed, was, r)
    }

    /** The keys that lead to f are gone, and all others lead where they led. */
    ghost predicate OnlyForgets(was: map<string, DedupeFile>, now: map<string, DedupeFile>, f: DedupeFile) {
      && (forall k :: k in now <==> k in was && was[k] != f)
      && (forall k :: k in now ==> now[k] == was[k])
    }

    /** CloseFile as it is: the file's handles go, but the file is looked for under its plain name. */
    method CloseFile(fileName: string, volumeID: int) returns (r: Option<Failure>)
      requires Linked() && Apart()
      requires var f := OfName(fileName, volumeID); f != null ==> f in files && f.Usable()
      modifies this`openFiles, this`fileHandles, this`books, Part(OfName(fileName, volumeID))
      ensures Linked() && Apart() && books == CloseFileNext(old(books), fileName, volumeID)
      ensures old(HandlesOwned()) ==> HandlesOwned()
      ensures var f := old(OfName(fileName, volumeID));
        if f == null then r == None && fileHandles == old(fileHandles)
        else
          && f.Usable()
          && CloseFileResult(f, old(Failed(OfName(fileName, volumeID))),
                 old(HistoryOf(OfName(fileName, volumeID))), r)
          && (r.None? && f.fileHandles != {} ==> FlatOnServer(f))
          && (old(Agree(books)) && volumeID >= 0 ==> OnlyForgets(old(fileHandles), fileHandles, f))
      ensures forall g :: g in old(files) && Other(g, old(OfName(fileName, volumeID))) && old(g.Usable()) ==> g.Usable()
    {
      hide GetFileGuid, GetGUID, CloseFileNext, CloseFileResult, FlatOnServer, Agree, OnlyForgets;
      hide DedupeFile.Settled, DedupeFile.Matches;
      r := None;
      var f := OfName(fileName, volumeID);
      if f != null {
        r := CloseNamed(f, fileName, volumeID);
      } else {
        NoFileToClose(books, fileName, volumeID);
      }
    }

    method CloseNamed(f: DedupeFile, fileName: string, volumeID: int) returns (r: Option<Failure>)
      requires Linked() && Apart() && f in files && OfName(fileName, volumeID) == f && f.Usable()
      modifies this`openFiles, this`fileHandles, this`books, f`cache, f`flushingBuffers, f`jobs, f`err, f`state,
          f`trace, f.bufs, f.deduper.remote
      ensures Linked() && Apart() && books == CloseFileNext(old(books), fileName, volumeID)
      ensures old(HandlesOwned()) ==> HandlesOwned()
      ensures f.Usable() && CloseFileResult(f, old(f.err).Some?, old(f.trace), r)
      ensures old(Agree(books)) && volumeID >= 0 ==> OnlyForgets(old(fileHandles), fileHandles, f)
      ensures r.None? && f.fileHandles != {} ==> FlatOnServer(f)
      ensures forall g :: g in old(files) && Other(g, f) && old(g.Usable()) ==> g.Usable()
    {
      hide GetGUID, GetFileGuid, CloseFileNext, CloseFileResult, FlatOnServer, Agree, OnlyForgets;
      hide DedupeFile.Settled, DedupeFile.Matches, Storage.OthersKept;
      FilesApart(f);
      r := CloseFoundFile(f, fileName, volumeID);
      f.ServerInOrder(deduper.remote.state);
      forall g | g in files && Other(g, f) && old(g.Usable()) ensures g.Usable() {
        g.StillMatches(old(deduper.remote.state), deduper.remote.state, f.File());
      }
    }

    method CloseFoundFile(file: DedupeFile, fileName: string, volumeID: int) returns (r: Option<Failure>)
      requires Linked() && Apart() && file in files && OfName(fileName, volumeID) == file && file.Usable()
      modifies this`openFiles, this`fileHandles, this`books, file`cache, file`flushingBuffers, file`jobs, file`err,
          file`state, file`trace, file.bufs, file.deduper.remote
      ensures Linked() && books == CloseFileNext(old(books), fileName, volumeID)
      ensures forall k :: k in fileHandles ==> k in old(fileHandles) && fileHandles[k] == old(fileHandles)[k]
      ensures file.Usable() && CloseFileResult(file, old(file.err).Some?, old(file.trace), r)
      ensures old(Agree(books)) && volumeID >= 0 ==> OnlyForgets(old(fileHandles), fileHandles, file)
      ensures r.None? && file.fileHandles != {} ==> FlatOnServer(file)
      ensures Storage.OthersKept(old(deduper.remote.state), deduper.remote.state, file.File())
    {
      hide GetFileGuid, GetGUID, CloseFileNext, FlatOnServer, Agree, OnlyForgets;
      hide DedupeFile.Settled, DedupeFile.Matches, DedupeFile.GaveUp, Storage.OthersKept, Histories.Synced;
      FilesApart(file);
      r := SyncFound(file);
      ForgetFile(file, fileName, volumeID);
      if file.err.Some? {
        r := Some(FileFailed);
      }
    }

    /** CloseFile's part on the registries. */
    method ForgetFile(file: DedupeFile, fileName: string, volumeID: int)
      requires Linked() && OfName(fileName, volumeID) == file
      modifies this`openFiles, this`fileHandles, this`books
      ensures Linked() && books == CloseFileNext(old(books), fileName, volumeID)
      ensures forall k :: k in fileHandles ==> k in old(fileHandles) && fileHandles[k] == old(fileHandles)[k]
      ensures old(Agree(books)) && volumeID >= 0 ==> OnlyForgets(old(fileHandles), fileHandles, file)
    {
      hide GetFileGuid, GetGUID, Agree, OnlyForgets;
      if Agree(books) && volumeID >= 0 {
        OthersStay(books, fileName, volumeID, file);
      }
      ForgetHandles(file.fileHandles, file.pVolumeID);
      openFiles := openFiles - {file.fileName};
      books := CloseFileNext(books, fileName, volumeID);
    }

    lemma OthersStay(b: Books<DedupeFile?>, fileName: string, volumeID: int, f: DedupeFile)
      requires Agree(b) && volumeID >= 0 && IsOpen(b, fileName, volumeID, f)
      ensures forall was, now: map<string, DedupeFile> ::
        was == b.handles && now == CloseFileNext(b, fileName, volumeID).handles ==> OnlyForgets(was, now, f)
    {
      CloseFileLeads(b, fileName, volumeID, f);
      hide Agree, CloseFileNext, GetFileGuid;
    }

    method ForgetHandles(handles: set<int>, volumeID: int)
      modifies this`fileHandles
      ensures fileHandles == old(fileHandles) - set fh | fh in handles :: GetGUID(fh, volumeID)
    {
      hide GetGUID;
      var todo := handles;
      while todo != {}
        invariant todo <= handles
        invariant fileHandles == old(fileHandles) - set fh | fh in handles && fh !in todo :: GetGUID(fh, volumeID)
        decreases todo
      {
        assert (forall x :: x !in todo) ==> todo == {};
        var k :| k in todo;
        fileHandles := fileHandles - {GetGUID(k, volumeID)};
        todo := todo - {k};
      }
    }

    // ----- Write -----

    /** The history went on by the writes of exactly the pieces of `data` at `offset`, and by workers. */
    ghost predicate WroteExactly(was: History, f: DedupeFile, offset: int, data: Bytes)
      reads f`trace
    {
      && offset >= 0 && f.chunkSize > 0 && was <= f.trace && WritingOnly(f.trace[|was|..])
      && WritePieces.WritesOf(f.trace[|was|..]) == WritePieces.Pieces(f.chunkSize, offset, data, 0)
    }

    /** What a Write to f comes to: a file error from before, the int32 panic, or exactly the pieces of the range. */
    ghost predicate WriteResult(f: DedupeFile, failed: bool, was: History, offset: int,
        data: Bytes, r: Option<Failure>)
      reads f`err, f`trace
    {
      if failed then r == Some(FileFailed) && f.err.Some? && f.trace == was
      else
        && f.chunkSize > 0
        && if EndFits(f.chunkSize, offset, |data|) then r == None && WroteExactly(was, f, offset, data)
           else r == Some(Panicked)
    }

    /** Write by handle. */
    method Write(fileHandle: int, offset: int, wbuffer: Bytes, length: int, volumeID: int, ghost data: Bytes)
        returns (r: Option<Failure>)
      requires Linked() && Apart() && HandlesOwned() && Writable(offset, wbuffer, length, data)
      requires var f := OfHandle(fileHandle, volumeID); f != null ==> f in files && f.Usable()
      modifies Part(OfHandle(fileHandle, volumeID))
      ensures Linked() && Apart() && HandlesOwned()
      ensures var f := old(OfHandle(fileHandle, volumeID));
        if f == null then r == Some(HandleNotFound)
        else
          && f.Valid() && (r != Some(Panicked) ==> f.Usable())
          && WriteResult(f, old(Failed(OfHandle(fileHandle, volumeID))),
                 old(HistoryOf(OfHandle(fileHandle, volumeID))), offset, data, r)
      ensures forall g :: g in old(files) && Other(g, old(OfHandle(fileHandle, volumeID))) && old(g.Usable()) ==>
                g.Usable()
    {
      hide GetGUID, Writable, WriteResult;
      hide DedupeFile.Settled, DedupeFile.Matches, DedupeFile.Good;
      var f := OfHandle(fileHandle, volumeID);
      if f == null {
        return Some(HandleNotFound);
      }
      assert f.Owns(fileHandle);
      r := WriteHeld(f, fileHandle, offset, wbuffer, length, data);
    }

    method WriteHeld(f: DedupeFile, fileHandle: int, offset: int, wbuffer: Bytes, length: int, ghost data: Bytes)
        returns (r: Option<Failure>)
      requires Linked() && Apart() && f in files && f.Usable()
      requires f.Owns(fileHandle) && Writable(offset, wbuffer, length, data)
      modifies f`bufs, f.Arrays(), f`cache, f`flushingBuffers, f`jobs, f`err, f`state, f`trace, f.bufs,
          f.deduper.remote
      ensures Linked() && Apart() && f.Valid() && (r != Some(Panicked) ==> f.Usable())
      ensures WriteResult(f, old(f.err).Some?, old(f.trace), offset, data, r)
      ensures forall g :: g in old(files) && Other(g, f) && old(g.Usable()) ==> g.Usable()
    {
      hide Writable, WriteResult;
      hide DedupeFile.Settled, DedupeFile.Matches, DedupeFile.Good, Storage.OthersKept, Storage.StoreOk;
      FilesApart(f);
      r := WriteOne(f, fileHandle, offset, wbuffer, length, data);
      forall g | g in files && Other(g, f) && old(g.Usable()) ensures g.Usable() {
        g.StillMatches(old(deduper.remote.state), deduper.remote.state, f.File());
      }
    }

    method WriteOne(f: DedupeFile, fileHandle: int, offset: int, wbuffer: Bytes, length: int, ghost data: Bytes)
        returns (r: Option<Failure>)
      requires f.Usable() && f.deduper == deduper
      requires f.Owns(fileHandle) && Writable(offset, wbuffer, length, data)
      modifies f`bufs, f.Arrays(), f`cache, f`flushingBuffers, f`jobs, f`err, f`state, f`trace, f.bufs,
          f.deduper.remote
      ensures f.Valid() && (r != Some(Panicked) ==> f.Usable()) && old(f.bufs) <= f.bufs
      ensures forall b :: b in f.bufs && b !in old(f.bufs) ==> fresh(b) && fresh(b.buffer)
      ensures WriteResult(f, old(f.err).Some?, old(f.trace), offset, data, r)
      ensures Storage.OthersKept(old(deduper.remote.state), deduper.remote.state, f.File())
      ensures Storage.StoreOk(deduper.codec, deduper.remote.state)
    {
      hide EndFits, WritingOnly, WritePieces.WritesOf, WritePieces.Pieces;
      hide DedupeFile.Settled, DedupeFile.Matches, DedupeFile.Good, Storage.OthersKept, Storage.StoreOk;
      var w := f.WriteUsable(fileHandle, offset, wbuffer, length, data);
      r := match w
        case Success(_) => None
        case Failure(Panic) => Some(Panicked)
        case Failure(FileError(_)) => Some(FileFailed);
    }
  }

  /** The service gave every handle out for the file that it leads to. */
  ghost predicate AllOwned(handles: map<string, DedupeFile>) {
    forall fh, vol :: GetGUID(fh, vol) in handles ==> handles[GetGUID(fh, vol)].Owns(fh)
  }

  lemma OwnedMore(handles: map<string, DedupeFile>, fileHandle: int, volumeID: int, file: DedupeFile)
    requires AllOwned(handles) && file.Owns(fileHandle)
    ensures AllOwned(handles[GetGUID(fileHandle, volumeID) := file])
  {
    hide GetGUID;
    var more := handles[GetGUID(fileHandle, volumeID) := file];
    forall fh, vol | GetGUID(fh, vol) in more ensures more[GetGUID(fh, vol)].Owns(fh) {
      if GetGUID(fh, vol) == GetGUID(fileHandle, volumeID) {
        GuidInjective(fh, vol, fileHandle, volumeID);
      }
    }
  }

  /** The file, if there is one, has an error. */
  ghost predicate Failed(f: DedupeFile?)
    reads if f == null then {} else {f}
  {
    f != null && f.err.Some?
  }

  ghost predicate HasHandles(f: DedupeFile?)
    reads if f == null then {} else {f}
  {
    f != null && f.fileHandles != {}
  }

  ghost function HistoryOf(f: DedupeFile?): History
    reads if f == null then {} else {f}
  {
    if f == null then [] else f.trace
  }

  lemma NoFileToClose<F>(b: Books<F>, name: string, vol: int)
    requires Known(b) && GetFileGuid(name, vol) !in b.open
    ensures CloseFileNext(b, name, vol) == b
  {
  }

  lemma NothingToClose<F>(b: Books<F>, fh: int, vol: int)
    requires Known(b) && GetGUID(fh, vol) !in b.handles
    ensures CloseNext(b, fh, vol) == b
  {
  }
}
