/** Snapshot rotation of src/meno_rag/db/backup.py.

    A snapshot is named by its fixed-width UTC timestamp YYYYmmddTHHMMSS, so the order of the
    file names is the numeric order of YYYYmmddHHMMSS and the first eight digits are the day. */
module SnapshotRotation {
  import opened Sets
  import opened Text

  type Snapshot = nat

  function Day(s: Snapshot): nat {
    s / 1_000_000
  }

  // ---------------------------------------------------------------- specification

  ghost function Newer(s: nat, all: set<nat>): set<nat> {
    set t | t in all && s < t
  }

  /** The `k` largest elements (none when `k` is not positive). */
  ghost function Top(all: set<nat>, k: int): set<nat> {
    set s | s in all && |Newer(s, all)| < k
  }

  ghost function Days(all: set<Snapshot>): set<nat> {
    set s | s in all :: Day(s)
  }

  ghost predicate NewestOfDay(s: Snapshot, all: set<Snapshot>) {
    s in all && forall t :: t in all && Day(t) == Day(s) ==> t <= s
  }

  ghost function Daily(all: set<Snapshot>, k: int): set<Snapshot> {
    set s | s in all && NewestOfDay(s, all) && Day(s) in Top(Days(all), k)
  }

  /** What the retention policy keeps of a set of snapshots, by rank alone. */
  ghost function Retained(all: set<Snapshot>, keepInterval: int, keepDaily: int): set<Snapshot> {
    Top(all, keepInterval) + Daily(all, keepDaily)
  }

  // ---------------------------------------------------------------- names

  lemma LastDigit(n: nat)
    requires n >= 10
    ensures Decimal(n)[..|Decimal(n)| - 1] == Decimal(n / 10) && |Decimal(n)| == |Decimal(n / 10)| + 1
  {
  }

  lemma {:induction false} Digits(n: nat, low: nat, k: nat)
    requires low == Power10(k) && low <= n < 10 * low
    ensures |Decimal(n)| == k + 1
  {
    if k > 0 {
      LastDigit(n);
      Digits(n / 10, low / 10, k - 1);
    }
  }

  function Power10(k: nat): nat {
    if k == 0 then 1 else 10 * Power10(k - 1)
  }

  lemma DropDigit(n: nat, k: nat)
    requires n >= 10 && k < |Decimal(n)|
    ensures Decimal(n)[..k] == Decimal(n / 10)[..k]
  {
    LastDigit(n);
    assert Decimal(n)[..|Decimal(n)| - 1][..k] == Decimal(n)[..k];
  }

  /** The day of a stamp of fourteen digits is its first eight. */
  lemma DayIsEightDigits(s: Snapshot)
    requires 10_000_000_000_000 <= s < 100_000_000_000_000
    ensures |Decimal(s)| == 14 && Decimal(s)[..8] == Decimal(Day(s))
  {
    var a, b, c := s / 10, s / 100, s / 1_000;
    var d, e, f := s / 10_000, s / 100_000, s / 1_000_000;
    assert a / 10 == b && b / 10 == c && c / 10 == d && d / 10 == e && e / 10 == f;
    assert Power10(7) == 10_000_000;
    Digits(f, 10_000_000, 7);
    LastDigit(e);
    LastDigit(d);
    LastDigit(c);
    LastDigit(b);
    LastDigit(a);
    LastDigit(s);
    DropDigit(s, 8);
    DropDigit(a, 8);
    DropDigit(b, 8);
    DropDigit(c, 8);
    DropDigit(d, 8);
    DropDigit(e, 8);
  }

  // ---------------------------------------------------------------- ranks

  lemma Least(all: set<nat>) returns (m: nat)
    requires all != {}
    ensures m in all && forall t :: t in all ==> m <= t
  {
    var x :| x in all;
    var rest := set t | t in all && t < x;
    SubsetSize(rest, all - {x});
    if rest == {} {
      m := x;
      assert forall t :: t in all && t < x ==> t in rest;
    } else {
      m := Least(rest);
      assert forall t :: t in all && t < x ==> t in rest;
    }
  }

  lemma Greatest(all: set<nat>) returns (m: nat)
    requires all != {}
    ensures m in all && forall t :: t in all ==> t <= m
  {
    var x :| x in all;
    var rest := set t | t in all && x < t;
    SubsetSize(rest, all - {x});
    if rest == {} {
      m := x;
      assert forall t :: t in all && x < t ==> t in rest;
    } else {
      m := Greatest(rest);
      assert forall t :: t in all && x < t ==> t in rest;
    }
  }

  lemma {:induction false} TopSize(all: set<nat>, k: nat)
    ensures |Top(all, k)| == if k <= |all| then k else |all|
  {
    if |all| <= k {
      forall s | s in all ensures |Newer(s, all)| < k {
        SubsetSize(Newer(s, all), all - {s});
      }
      assert Top(all, k) == all;
    } else {
      var m := Least(all);
      assert Newer(m, all) == all - {m};
      forall s | s in all && s != m ensures Newer(s, all) == Newer(s, all - {m}) {
      }
      assert Top(all, k) == Top(all - {m}, k);
      TopSize(all - {m}, k);
    }
  }

  /** Dropping elements below the top `k` does not change the top `k`. */
  lemma TopSandwich(all: set<nat>, some: set<nat>, k: int)
    requires Top(all, k) <= some <= all
    ensures Top(some, k) == Top(all, k)
  {
    forall s | s in Top(all, k) ensures s in Top(some, k) {
      SubsetSize(Newer(s, some), Newer(s, all));
    }
    forall s | s in Top(some, k) ensures s in Top(all, k) {
      if s !in Top(all, k) {
        forall t | t in Top(all, k) ensures s < t {
          if t <= s {
            SubsetSize(Newer(s, all), Newer(t, all));
          }
        }
        SubsetSize(Top(all, k), Newer(s, some));
        SubsetSize(Newer(s, all), all);
        TopSize(all, k);
      }
    }
  }

  lemma TopOfExtension(all: set<nat>, x: nat, k: int)
    ensures Top(all + {x}, k) <= Top(all, k) + {x}
  {
    forall s | s in Top(all + {x}, k) ensures s in Top(all, k) + {x} {
      SubsetSize(Newer(s, all), Newer(s, all + {x}));
    }
  }

  // ---------------------------------------------------------------- rotation laws

  lemma RetainedOfExtension(all: set<Snapshot>, x: Snapshot, ki: int, kd: int)
    ensures Retained(all + {x}, ki, kd) <= Retained(all, ki, kd) + {x}
  {
    TopOfExtension(all, x, ki);
    assert Days(all + {x}) == Days(all) + {Day(x)};
    TopOfExtension(Days(all), Day(x), kd);
    forall s | s in Daily(all + {x}, kd) && s != x ensures s in Daily(all, kd) {
      assert NewestOfDay(s, all);
      assert Day(s) in Days(all);
      SubsetSize(Newer(Day(s), Days(all)), Newer(Day(s), Days(all + {x})));
    }
  }

  lemma NewestExists(all: set<Snapshot>, s: Snapshot) returns (m: Snapshot)
    requires s in all
    ensures NewestOfDay(m, all) && Day(m) == Day(s)
  {
    var sameDay := set t | t in all && Day(t) == Day(s);
    assert s in sameDay;
    m := Greatest(sameDay);
    assert forall t :: t in all && Day(t) == Day(s) ==> t in sameDay;
  }

  /** Rotation depends only on what an earlier rotation would have kept. */
  lemma RetainedSandwich(all: set<Snapshot>, some: set<Snapshot>, ki: int, kd: int)
    requires Retained(all, ki, kd) <= some <= all
    ensures Retained(some, ki, kd) == Retained(all, ki, kd)
  {
    TopSandwich(all, some, ki);
    forall d | d in Top(Days(all), kd) ensures d in Days(some) {
      var s :| s in all && Day(s) == d;
      var m := NewestExists(all, s);
      assert m in Daily(all, kd);
    }
    TopSandwich(Days(all), Days(some), kd);
    forall s | s in Daily(some, kd) ensures s in Daily(all, kd) {
      var m := NewestExists(all, s);
      assert m in Daily(all, kd);
      assert m == s;
    }
    assert Daily(some, kd) == Daily(all, kd);
  }

  lemma RotationIsIdempotent(all: set<Snapshot>, ki: int, kd: int)
    ensures Retained(Retained(all, ki, kd), ki, kd) == Retained(all, ki, kd)
  {
    RetainedSandwich(all, Retained(all, ki, kd), ki, kd);
  }

  /** The directory after a run of backup cycles; a name already taken makes the copy fail, and then
      nothing is rotated either. */
  ghost function AfterCycle(files: set<Snapshot>, stamp: Snapshot, ki: int, kd: int): set<Snapshot> {
    if stamp in files then files else Retained(files + {stamp}, ki, kd)
  }

  ghost function AfterCycles(history: seq<Snapshot>, ki: int, kd: int): set<Snapshot> {
    if history == [] then {}
    else AfterCycle(AfterCycles(history[..|history| - 1], ki, kd), history[|history| - 1], ki, kd)
  }

  ghost function Stamps(history: seq<Snapshot>): set<Snapshot> {
    set s | s in history
  }

  /** Rotating after every backup leaves exactly what one rotation of the whole history would: nothing
      that a later rotation needs is ever dropped early.  It holds for stamps in any order. */
  lemma {:induction false} IncrementalRotationIsGlobal(history: seq<Snapshot>, ki: int, kd: int)
    ensures AfterCycles(history, ki, kd) == Retained(Stamps(history), ki, kd)
  {
    if history == [] {
      assert Stamps(history) == {};
    } else {
      var before, x := history[..|history| - 1], history[|history| - 1];
      IncrementalRotationIsGlobal(before, ki, kd);
      var all, kept := Stamps(before), AfterCycles(before, ki, kd);
      assert history == before + [x];
      assert Stamps(history) == all + {x};
      RetainedOfExtension(all, x, ki, kd);
      if x in kept {
        assert all + {x} == all;
      } else {
        RetainedSandwich(all + {x}, kept + {x}, ki, kd);
      }
    }
  }

  lemma {:induction false} DailySize(files: set<Snapshot>, days: set<nat>)
    requires forall s, t :: s in files && t in files && Day(s) == Day(t) ==> s == t
    requires forall s :: s in files ==> Day(s) in days
    ensures |files| <= |days|
  {
    if files == {} {
    } else {
      var s :| s in files;
      DailySize(files - {s}, days - {Day(s)});
    }
  }

  function AtLeastZero(k: int): nat {
    if k > 0 then k else 0
  }

  /** The directory never outgrows the two limits. */
  lemma RetainedIsBounded(all: set<Snapshot>, ki: int, kd: int)
    ensures |Retained(all, ki, kd)| <= AtLeastZero(ki) + AtLeastZero(kd)
  {
    assert Top(all, ki) == Top(all, AtLeastZero(ki));
    assert Top(Days(all), kd) == Top(Days(all), AtLeastZero(kd));
    TopSize(all, AtLeastZero(ki));
    TopSize(Days(all), AtLeastZero(kd));
    DailySize(Daily(all, kd), Top(Days(all), kd));
  }

  /** A positive limit keeps the newest snapshot. */
  lemma NewestIsRetained(all: set<Snapshot>, ki: int, kd: int, m: Snapshot)
    requires m in all && forall t :: t in all ==> t <= m
    requires ki > 0 || kd > 0
    ensures m in Retained(all, ki, kd)
  {
  }

  // ---------------------------------------------------------------- the rotation loop

  ghost predicate Ascending(q: seq<nat>) {
    forall i, j :: 0 <= i < j < |q| ==> q[i] < q[j]
  }

  function Elements(q: seq<nat>): set<nat> {
    set x | x in q
  }

  lemma ElementsAppend(q: seq<nat>, x: nat)
    ensures Elements(q + [x]) == Elements(q) + {x}
  {
  }

  /** Python's `sorted` on a set of distinct names. */
  function SortedAscending(all: set<nat>): seq<nat> {
    if all == {} then []
    else
      ghost var least := GhostLeast(all);
      assert least in all && forall t :: t in all ==> least <= t;
      var m :| m in all && forall t :: t in all ==> m <= t;
      [m] + SortedAscending(all - {m})
  }

  ghost function GhostLeast(all: set<nat>): (m: nat)
    requires all != {}
    ensures m in all && forall t :: t in all ==> m <= t
  {
    assert exists m :: m in all && forall t :: t in all ==> m <= t by {
      var m := Least(all);
    }
    var m :| m in all && forall t :: t in all ==> m <= t;
    m
  }

  lemma {:induction false} SortedElements(all: set<nat>)
    ensures Elements(SortedAscending(all)) == all
  {
    if all == {} {
    } else {
      var q := SortedAscending(all);
      var least, rest := q[0], q[1..];
      SortedElements(all - {least});
      assert q == [least] + rest;
      ConsElements(least, rest);
    }
  }

  lemma {:induction false} SortedAscendingIsSorted(all: set<nat>)
    ensures Ascending(SortedAscending(all)) && Elements(SortedAscending(all)) == all
  {
    SortedElements(all);
    if all == {} {
    } else {
      var least := SortedAscending(all)[0];
      SortedAscendingIsSorted(all - {least});
      ConsAscending(least, SortedAscending(all - {least}));
    }
  }

  lemma ConsAscending(x: nat, q: seq<nat>)
    requires Ascending(q) && forall y :: y in Elements(q) ==> x < y
    ensures Ascending([x] + q)
  {
    forall j | 0 <= j < |q| ensures x < q[j] {
      assert q[j] in Elements(q);
    }
  }

  lemma ConsElements(x: nat, q: seq<nat>)
    ensures Elements([x] + q) == Elements(q) + {x}
  {
  }

  /** Python's `q[-k:]` for a positive `k`. */
  function Suffix(q: seq<nat>, k: int): seq<nat>
    requires k > 0
  {
    if k < |q| then q[|q| - k..] else q
  }

  lemma {:induction false} RankInAscending(q: seq<nat>, i: nat)
    requires Ascending(q) && i < |q|
    ensures |Newer(q[i], Elements(q))| == |q| - 1 - i
    decreases |q| - i
  {
    if i == |q| - 1 {
      assert Newer(q[i], Elements(q)) == {};
    } else {
      RankInAscending(q, i + 1);
      assert Newer(q[i], Elements(q)) == Newer(q[i + 1], Elements(q)) + {q[i + 1]} by {
        forall t | t in Newer(q[i], Elements(q)) ensures t == q[i + 1] || q[i + 1] < t {
          var j :| 0 <= j < |q| && q[j] == t;
          assert i < j;
        }
      }
    }
  }

  lemma SuffixIsTop(q: seq<nat>, k: int)
    requires Ascending(q) && k > 0
    ensures Elements(Suffix(q, k)) == Top(Elements(q), k)
  {
    forall x | x in Elements(q) ensures x in Suffix(q, k) <==> x in Top(Elements(q), k) {
      var i :| 0 <= i < |q| && q[i] == x;
      RankInAscending(q, i);
      var from := if k < |q| then |q| - k else 0;
      assert Suffix(q, k) == q[from..];
      if from <= i {
        assert q[from..][i - from] == x;
      }
    }
  }

  /** The names of `q` outside `keep`, in order. */
  function Outside(q: seq<nat>, keep: set<nat>): seq<nat> {
    if q == [] then []
    else
      var front, x := Outside(q[..|q| - 1], keep), q[|q| - 1];
      if x in keep then front else front + [x]
  }

  lemma {:induction false} OutsideKept(q: seq<nat>, keep: set<nat>)
    ensures Elements(Outside(q, keep)) == Elements(q) - keep
  {
    if q == [] {
    } else {
      var front, x := q[..|q| - 1], q[|q| - 1];
      OutsideKept(front, keep);
      assert q == front + [x];
      ElementsAppend(front, x);
      ElementsAppend(Outside(front, keep), x);
    }
  }

  lemma {:induction false} OutsideElements(q: seq<nat>, keep: set<nat>)
    requires Ascending(q)
    ensures Ascending(Outside(q, keep))
    ensures Elements(Outside(q, keep)) == Elements(q) - keep
  {
    OutsideKept(q, keep);
    if q == [] {
    } else {
      var front, x := q[..|q| - 1], q[|q| - 1];
      var out := Outside(front, keep);
      OutsideElements(front, keep);
      forall i | 0 <= i < |out| ensures out[i] < x {
        assert out[i] in Elements(out) && out[i] in Elements(front);
      }
    }
  }

  /** The `by_day` dictionary after a pass: the last write per day wins. */
  function LastPerDay(q: seq<Snapshot>): map<nat, Snapshot> {
    if q == [] then map[] else LastPerDay(q[..|q| - 1])[Day(q[|q| - 1]) := q[|q| - 1]]
  }

  lemma {:induction false} LastPerDayKeys(q: seq<Snapshot>)
    ensures LastPerDay(q).Keys == Days(Elements(q))
  {
    if q == [] {
    } else {
      var front, x := q[..|q| - 1], q[|q| - 1];
      LastPerDayKeys(front);
      assert q == front + [x];
      ElementsAppend(front, x);
      assert Days(Elements(q)) == Days(Elements(front)) + {Day(x)};
    }
  }

  lemma {:induction false} LastPerDayIsNewest(q: seq<Snapshot>, d: nat)
    requires Ascending(q) && d in LastPerDay(q)
    ensures NewestOfDay(LastPerDay(q)[d], Elements(q)) && Day(LastPerDay(q)[d]) == d
  {
    var front, x := q[..|q| - 1], q[|q| - 1];
    assert q == front + [x];
    ElementsAppend(front, x);
    assert forall t :: t in Elements(front) ==> t < x;
    if d != Day(x) {
      LastPerDayIsNewest(front, d);
    }
  }

  /** The days kept by the daily rule select exactly the newest snapshot of each of the last days. */
  lemma DailyFromDays(snaps: seq<Snapshot>, k: int)
    requires Ascending(snaps) && k > 0
    ensures var byDay := LastPerDay(snaps); var days := SortedAscending(byDay.Keys);
            && (forall d :: d in Suffix(days, k) ==> d in byDay)
            && (set d | d in Suffix(days, k) :: byDay[d]) == Daily(Elements(snaps), k)
  {
    var all, byDay := Elements(snaps), LastPerDay(snaps);
    var days := SortedAscending(byDay.Keys);
    LastPerDayKeys(snaps);
    forall d | d in byDay ensures NewestOfDay(byDay[d], all) && Day(byDay[d]) == d {
      LastPerDayIsNewest(snaps, d);
    }
    SortedAscendingIsSorted(byDay.Keys);
    SuffixIsTop(days, k);
    assert forall d :: d in Suffix(days, k) <==> d in Top(Days(all), k);
    forall s | s in Daily(all, k) ensures s in (set d | d in Suffix(days, k) :: byDay[d]) {
      assert s == byDay[Day(s)];
    }
  }

  /** The two rules that fill the `keep` set. */
  method SelectKept(snaps: seq<Snapshot>, keepInterval: int, keepDaily: int) returns (keep: set<Snapshot>)
    requires Ascending(snaps)
    ensures keep == Retained(Elements(snaps), keepInterval, keepDaily)
    ensures keep <= Elements(snaps)
  {
    keep := {};
    if keepInterval > 0 {
      SuffixIsTop(snaps, keepInterval);
      keep := keep + Elements(Suffix(snaps, keepInterval));
    }
    assert keep == Top(Elements(snaps), keepInterval);
    if keepDaily > 0 {
      var byDay := CollectByDay(snaps);
      DailyFromDays(snaps, keepDaily);
      keep := keep + KeptDays(byDay, Suffix(SortedAscending(byDay.Keys), keepDaily));
    }
  }

  method CollectByDay(snaps: seq<Snapshot>) returns (byDay: map<nat, Snapshot>)
    ensures byDay == LastPerDay(snaps)
  {
    byDay := map[];
    for i := 0 to |snaps|
      invariant byDay == LastPerDay(snaps[..i])
    {
      assert snaps[..i + 1][..i] == snaps[..i];
      byDay := byDay[Day(snaps[i]) := snaps[i]];
    }
    assert snaps[..|snaps|] == snaps;
  }

  class BackupDirectory {
    var files: set<Snapshot>

    constructor ()
      ensures files == {}
    {
      files := {};
    }

    method RotateSnapshots(keepInterval: int, keepDaily: int) returns (removed: seq<Snapshot>)
      modifies this
      ensures files == Retained(old(files), keepInterval, keepDaily)
      ensures Ascending(removed) && Elements(removed) == old(files) - files
    {
      var snaps := SortedAscending(files);
      SortedAscendingIsSorted(files);
      var keep := SelectKept(snaps, keepInterval, keepDaily);
      removed := UnlinkOutside(snaps, keep);
    }

    method UnlinkOutside(snaps: seq<Snapshot>, keep: set<Snapshot>) returns (removed: seq<Snapshot>)
      requires Ascending(snaps)
      modifies this
      ensures removed == Outside(snaps, keep)
      ensures Ascending(removed) && Elements(removed) == Elements(snaps) - keep
      ensures files == old(files) - (Elements(snaps) - keep)
    {
      removed := [];
      for i := 0 to |snaps|
        invariant removed == Outside(snaps[..i], keep)
        invariant files == old(files) - Elements(removed)
      {
        var snap := snaps[i];
        assert snaps[..i + 1][..i] == snaps[..i];
        if snap !in keep {
          ElementsAppend(removed, snap);
          files := files - {snap};
          removed := removed + [snap];
        }
      }
      assert snaps[..|snaps|] == snaps;
      OutsideElements(snaps, keep);
    }

    method RunBackupCycle(stamp: Snapshot, keepInterval: int, keepDaily: int) returns (created: bool)
      modifies this
      ensures created == (stamp !in old(files))
      ensures files == AfterCycle(old(files), stamp, keepInterval, keepDaily)
    {
      created := stamp !in files;
      if created {
        files := files + {stamp};
        var _ := RotateSnapshots(keepInterval, keepDaily);
      }
    }
  }

  function KeptDays(byDay: map<nat, Snapshot>, days: seq<nat>): set<Snapshot>
    requires forall d :: d in days ==> d in byDay
  {
    set d | d in days :: byDay[d]
  }
}
