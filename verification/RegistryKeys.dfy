/** The string keys of the engine's two registries, and exactly when they tell two entries apart. */
module RegistryKeys {

  function Digit(d: nat): char
    requires d < 10
  {
    '0' + d as char
  }

  function Digits(n: nat): (s: string)
    ensures s != [] && forall i :: 0 <= i < |s| ==> s[i] != '-'
  {
    if n < 10 then [Digit(n)] else Digits(n / 10) + [Digit(n % 10)]
  }

  /** What the verb %d prints. */
  function Decimal(n: int): string {
    if n < 0 then "-" + Digits(-n) else Digits(n)
  }

  function GetGUID(fh: int, volumeID: int): string {
    Decimal(volumeID) + "-" + Decimal(fh)
  }

  function GetFileGuid(file: string, volumeID: int): string {
    file + "-" + Decimal(volumeID)
  }

  lemma DigitsInjective(a: nat, b: nat)
    requires Digits(a) == Digits(b)
    ensures a == b
  {
    var s := Digits(a);
    assert s[|s| - 1] == Digit(a % 10) == Digit(b % 10);
    assert a >= 10 ==> |s| == |Digits(a / 10)| + 1 > 1;
    assert b >= 10 ==> |s| == |Digits(b / 10)| + 1 > 1;
    if a >= 10 {
      assert Digits(a / 10) == s[..|s| - 1] == Digits(b / 10);
      DigitsInjective(a / 10, b / 10);
    }
  }

  /** The sign shows: what %d prints begins with a dash exactly for a negative number. */
  lemma DecimalSign(n: int)
    ensures Decimal(n) != []
    ensures Decimal(n)[0] == '-' <==> n < 0
    ensures n >= 0 ==> NoDash(Decimal(n))
  {
  }

  lemma DecimalInjective(a: int, b: int)
    requires Decimal(a) == Decimal(b)
    ensures a == b
  {
    DecimalSign(a);
    DecimalSign(b);
    if a < 0 {
      assert Decimal(a)[1..] == Digits(-a) && Decimal(b)[1..] == Digits(-b);
      DigitsInjective(-a, -b);
    } else {
      DigitsInjective(a, b);
    }
  }

  ghost predicate NoDash(s: string) {
    forall i :: 0 <= i < |s| ==> s[i] != '-'
  }

  /** The first dash of a + "-" + x is where a ends. */
  lemma FirstDash(a: string, x: string, s: string, n: nat)
    requires NoDash(a) && s == a + "-" + x
    requires n < |s| && s[n] == '-' && NoDash(s[..n])
    ensures n == |a|
  {
    assert s[|a|] == '-';
    assert forall i :: 0 <= i < n ==> s[i] == s[..n][i];
    assert forall i :: 0 <= i < |a| ==> s[i] == a[i];
  }

  lemma SplitFirst(a: string, x: string, b: string, y: string)
    requires NoDash(a) && NoDash(b) && a + "-" + x == b + "-" + y
    ensures a == b && x == y
  {
    var s := a + "-" + x;
    assert s[..|b|] == b && s[..|a|] == a;
    FirstDash(a, x, s, |b|);
    assert x == s[|a| + 1..] && y == s[|b| + 1..];
  }

  /** The last dash of x + "-" + a is where a begins. */
  lemma LastDash(x: string, a: string, s: string, n: nat)
    requires NoDash(a) && s == x + "-" + a
    requires n < |s| && s[n] == '-' && NoDash(s[n + 1..])
    ensures n == |x|
  {
    assert s[|x|] == '-';
    assert forall i :: n < i < |s| ==> s[i] == s[n + 1..][i - n - 1];
    assert forall i :: |x| < i < |s| ==> s[i] == a[i - |x| - 1];
  }

  lemma SplitLast(x: string, a: string, y: string, b: string)
    requires NoDash(a) && NoDash(b) && x + "-" + a == y + "-" + b
    ensures a == b && x == y
  {
    var s := x + "-" + a;
    assert s[|y| + 1..] == b && s[|x| + 1..] == a;
    LastDash(x, a, s, |y|);
    assert x == s[..|x|] && y == s[..|y|];
  }

  lemma GuidSign(fh: int, vol: int)
    ensures GetGUID(fh, vol) != [] && (GetGUID(fh, vol)[0] == '-' <==> vol < 0)
    ensures vol < 0 ==> GetGUID(fh, vol)[1..] == Digits(-vol) + "-" + Decimal(fh)
  {
    DecimalSign(vol);
    hide Digits;
    assert GetGUID(fh, vol)[0] == Decimal(vol)[0];
    if vol < 0 {
      assert GetGUID(fh, vol) == ("-" + Digits(-vol)) + "-" + Decimal(fh);
    }
  }

  /** No two pairs of a handle and a volume share a key, negative ones included. */
  lemma GuidInjective(fh1: int, vol1: int, fh2: int, vol2: int)
    requires GetGUID(fh1, vol1) == GetGUID(fh2, vol2)
    ensures fh1 == fh2 && vol1 == vol2
  {
    hide Digits;
    GuidSign(fh1, vol1);
    GuidSign(fh2, vol2);
    if vol1 < 0 {
      SplitFirst(Digits(-vol1), Decimal(fh1), Digits(-vol2), Decimal(fh2));
      DigitsInjective(-vol1, -vol2);
    } else {
      SplitFirst(Digits(vol1), Decimal(fh1), Digits(vol2), Decimal(fh2));
      DigitsInjective(vol1, vol2);
    }
    DecimalInjective(fh1, fh2);
  }

  /**
   * The one way two file keys collide: a name that ends in a dash, on the volume whose number is the other's negated.
   */
  ghost predicate DashCollision(file1: string, vol1: int, file2: string, vol2: int) {
    vol1 < 0 && vol2 == -vol1 && file2 == file1 + "-"
  }

  lemma FileGuidForm(file: string, vol: int)
    ensures GetFileGuid(file, vol) == (if vol < 0 then file + "-" else file) + "-" + Digits(if vol < 0 then -vol
        else vol)
    ensures NoDash(Digits(if vol < 0 then -vol else vol))
  {
    hide Digits;
    if vol < 0 {
      assert file + "-" + ("-" + Digits(-vol)) == (file + "-") + "-" + Digits(-vol);
    }
  }

  lemma FileGuidCollides(file1: string, vol1: int, file2: string, vol2: int)
    ensures GetFileGuid(file1, vol1) == GetFileGuid(file2, vol2) <==>
            || (file1 == file2 && vol1 == vol2)
            || DashCollision(file1, vol1, file2, vol2)
            || DashCollision(file2, vol2, file1, vol1)
  {
    var f1 := if vol1 < 0 then file1 + "-" else file1;
    var f2 := if vol2 < 0 then file2 + "-" else file2;
    var n1 := if vol1 < 0 then -vol1 else vol1;
    var n2 := if vol2 < 0 then -vol2 else vol2;
    FileGuidForm(file1, vol1);
    FileGuidForm(file2, vol2);
    hide GetFileGuid, Digits, NoDash;
    if f1 + "-" + Digits(n1) == f2 + "-" + Digits(n2) {
      SplitLast(f1, Digits(n1), f2, Digits(n2));
      DigitsInjective(n1, n2);
      if vol1 < 0 && vol2 < 0 {
        assert file1 == f1[..|f1| - 1] == file2;
      }
    }
  }

  /**
   * Two volumes keep all their files apart exactly when their numbers are not each other's negation, or they are one
   * volume.
   */
  lemma FileGuidSeparatesVolumes(vol1: int, vol2: int)
    ensures (forall file1, file2 ::
               GetFileGuid(file1, vol1) == GetFileGuid(file2, vol2) ==> file1 == file2 && vol1 == vol2)
            <==> vol1 == vol2 || vol1 != -vol2
  {
    if vol1 == vol2 || vol1 != -vol2 {
      forall file1, file2 | GetFileGuid(file1, vol1) == GetFileGuid(file2, vol2) ensures file1 == file2
          && vol1 == vol2 {
        FileGuidCollides(file1, vol1, file2, vol2);
      }
    } else if vol1 < 0 {
      FileGuidCollides("a", vol1, "a" + "-", vol2);
    } else {
      FileGuidCollides("a" + "-", vol1, "a", vol2);
    }
  }
}
