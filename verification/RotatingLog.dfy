/** A log and its numbered backups. */
module RotatingLog {
  import opened Folds
  import opened Utf8Truncate

  type Bytes = seq<Byte>

  /** The current file, the size kept beside it, and the backups by number, unpacked. */
  datatype Log = Log(current: Bytes, size: int, backups: map<int, Bytes>)

  /** The numbers in use after a rotation that keeps `n` backups. */
  function Numbers(backups: map<int, Bytes>, n: int): set<int> {
    (set j | j in backups && 1 <= j < n :: j + 1) + (set j | j in backups && (j < 1 || n < j)) + {1}
  }

  /** The backups after a rotation: each number up by one, the `n`th gone, the current file as the first. */
  function Shifted(backups: map<int, Bytes>, n: int, current: Bytes): map<int, Bytes> {
    map j | j in Numbers(backups, n) ::
      if j == 1 then current else if 1 < j <= n && j - 1 in backups then backups[j - 1]
      else if j in backups then backups[j] else []
  }

  function Appended(log: Log, data: string): Log {
    log.(current := log.current + Encode(data), size := log.size + |Encode(data)|)
  }

  function AfterWrite(log: Log, maxSize: int, backupCount: int, data: string): Log {
    var a := Appended(log, data);
    if a.size >= maxSize then Log([], 0, Shifted(a.backups, backupCount, a.current)) else a
  }

  lemma NumbersHas(b: map<int, Bytes>, n: int, i: int)
    requires i in b && 1 <= i < n
    ensures i + 1 in Numbers(b, n) && i + 1 in Shifted(b, n, [])
  {
  }

  lemma RoomIsShifted(room: map<int, Bytes>, b: map<int, Bytes>, n: int, c: Bytes)
    requires forall j :: (j < 1 || n < j) ==> (j in room <==> j in b) && (j in b ==> room[j] == b[j])
    requires forall j :: 1 < j <= n ==> (j in room <==> j - 1 in b) && (j - 1 in b ==> room[j] == b[j - 1])
    ensures room[1 := c] == Shifted(b, n, c)
  {
    var r, s := room[1 := c], Shifted(b, n, c);
    forall j ensures j in r <==> j in s {
      if 1 < j <= n && j - 1 in b {
        NumbersHas(b, n, j - 1);
      }
    }
  }

  class RotatingLogWriter {
    const maxSize: int
    const backupCount: int
    var current: Bytes
    var backups: map<int, Bytes>
    var currentSize: int
    var isOpen: bool

    ghost function View(): Log
      reads this
    {
      Log(current, currentSize, backups)
    }

    /** Opens the log with the files that are there. */
    constructor (maxSize: int, backupCount: int, current: Bytes, backups: map<int, Bytes>)
      ensures this.maxSize == maxSize && this.backupCount == backupCount && isOpen
      ensures View() == Log(current, |current|, backups)
    {
      this.maxSize, this.backupCount := maxSize, backupCount;
      this.current, this.currentSize, this.backups, this.isOpen := current, |current|, backups, true;
    }

    /** Renaming onto a file that exists would lose it: nothing may be there. */
    method Rename(src: int, dst: int)
      requires src in backups && dst !in backups
      modifies this`backups
      ensures backups == old(backups)[dst := old(backups)[src]] - {src}
    {
      backups := backups[dst := backups[src]] - {src};
    }

    /** The loop of `_rotate`: room is made for a first backup. */
    method MakeRoom()
      modifies this`backups
      ensures forall c :: backups[1 := c] == Shifted(old(backups), backupCount, c)
    {
      ghost var b, n := backups, backupCount;
      var i := backupCount;
      while i > 0
        invariant i <= n && (n >= 0 ==> i >= 0) && (n < 0 ==> i == n)
        invariant forall j :: (j <= i || n < j) ==> (j in backups <==> j in b) && (j in b ==> backups[j] == b[j])
        invariant forall j :: i + 1 < j <= n ==>
                    (j in backups <==> j - 1 in b) && (j - 1 in b ==> backups[j] == b[j - 1])
        invariant 0 <= i < n ==> i + 1 !in backups
        decreases i
      {
        if i in backups {
          if i == backupCount {
            backups := backups - {i};
          } else {
            Rename(i, i + 1);
          }
        }
        i := i - 1;
      }
      forall c ensures backups[1 := c] == Shifted(b, n, c) {
        RoomIsShifted(backups, b, n, c);
      }
    }

    /** `_rotate`. */
    method Rotate()
      modifies this
      ensures View() == Log([], 0, Shifted(old(backups), backupCount, old(current))) && isOpen
    {
      MakeRoom();
      backups := backups[1 := current];
      current, currentSize, isOpen := [], 0, true;
    }

    /** `write`. */
    method Write(data: string)
      modifies this
      ensures isOpen == old(isOpen)
      ensures View() == if isOpen then AfterWrite(old(View()), maxSize, backupCount, data) else old(View())
    {
      if !isOpen {
        return;
      }
      current := current + Encode(data);
      currentSize := currentSize + |Encode(data)|;
      if currentSize >= maxSize {
        Rotate();
      }
    }

    /** `close`. */
    method Close()
      modifies this`isOpen
      ensures !isOpen
    {
      isOpen := false;
    }
  }

  // ---------------------------------------------------------------- what is kept

  /** How many backups a log can have after a rotation: a first one is always made. */
  function Most(backupCount: int): nat {
    if backupCount >= 1 then backupCount else 1
  }

  /** No backup has a number outside 1 to `k`. */
  ghost predicate Within(backups: map<int, Bytes>, k: nat) {
    forall j :: j in backups ==> 1 <= j <= k
  }

  /** The backups are numbered from 1 to `k` without gaps. */
  ghost predicate Numbered(backups: map<int, Bytes>, k: nat) {
    forall j :: j in backups <==> 1 <= j <= k
  }

  function At(backups: map<int, Bytes>, j: int): Bytes {
    if j in backups then backups[j] else []
  }

  /** The backups numbered up to `k`, from the oldest to the newest. */
  function Old(backups: map<int, Bytes>, k: nat): Bytes {
    if k == 0 then [] else At(backups, k) + Old(backups, k - 1)
  }

  function Kept(log: Log, k: nat): Bytes {
    Old(log.backups, k) + log.current
  }

  /** The tracked size is that of the current file, and no backup has a number above `k`. */
  ghost predicate LogOk(log: Log, k: nat) {
    log.size == |log.current| && Within(log.backups, k)
  }

  /** Asking for no backup is the same as asking for one. */
  lemma ShiftedMost(b: map<int, Bytes>, n: int, c: Bytes)
    ensures Shifted(b, n, c) == Shifted(b, Most(n), c)
  {
    assert Numbers(b, n) == Numbers(b, Most(n));
  }

  lemma AtShifted(b: map<int, Bytes>, n: int, c: Bytes, m: nat)
    requires 1 <= m <= n
    ensures At(Shifted(b, n, c), m) == if m == 1 then c else At(b, m - 1)
  {
    if m > 1 && m - 1 in b {
      NumbersHas(b, n, m - 1);
    }
  }

  /** The first `m` backups after a rotation are the first `m - 1` of before and what was the current file. */
  lemma {:induction false} OldShifted(b: map<int, Bytes>, n: int, c: Bytes, m: nat)
    requires 1 <= m <= n
    ensures Old(Shifted(b, n, c), m) == Old(b, m - 1) + c
  {
    AtShifted(b, n, c, m);
    if m == 1 {
      assert c + [] == [] + c;
    } else {
      OldShifted(b, n, c, m - 1);
      ConcatAssociates(At(b, m - 1), Old(b, m - 2), c);
    }
  }

  /** What a write drops: the oldest backup there may be, when the log is rotated. */
  function Dropped(log: Log, maxSize: int, backupCount: int, data: string): Bytes {
    if Appended(log, data).size >= maxSize then At(log.backups, Most(backupCount)) else []
  }

  lemma ShiftedWithin(b: map<int, Bytes>, n: nat, c: Bytes)
    requires n >= 1 && Within(b, n)
    ensures Within(Shifted(b, n, c), n)
  {
  }

  lemma ShiftedKept(b: map<int, Bytes>, n: nat, c: Bytes)
    requires n >= 1
    ensures At(b, n) + Old(Shifted(b, n, c), n) == Old(b, n) + c
  {
    OldShifted(b, n, c, n);
    ConcatAssociates(At(b, n), Old(b, n - 1), c);
  }

  /** A write keeps the tracked size true and the backups within their number and, of all the bytes in order,
      everything but the one backup that is dropped. */
  lemma WriteKeeps(log: Log, maxSize: int, backupCount: int, data: string)
    requires LogOk(log, Most(backupCount))
    ensures var n, after := Most(backupCount), AfterWrite(log, maxSize, backupCount, data);
      && LogOk(after, n)
      && Dropped(log, maxSize, backupCount, data) + Kept(after, n) == Kept(log, n) + Encode(data)
  {
    var a, n := Appended(log, data), Most(backupCount);
    ConcatAssociates(Old(log.backups, n), log.current, Encode(data));
    if a.size >= maxSize {
      ShiftedMost(log.backups, backupCount, a.current);
      ShiftedWithin(log.backups, n, a.current);
      ShiftedKept(log.backups, n, a.current);
      var s := Old(Shifted(log.backups, n, a.current), n);
      assert s + [] == s;
    } else {
      assert [] + Kept(a, n) == Kept(a, n);
    }
  }

  /** Backups numbered without gaps stay so: a rotation adds one until all are there. */
  lemma WriteNumbers(log: Log, maxSize: int, backupCount: int, data: string, k: nat)
    requires Numbered(log.backups, k) && k <= Most(backupCount)
    ensures Numbered(AfterWrite(log, maxSize, backupCount, data).backups,
                     if Appended(log, data).size < maxSize || k == Most(backupCount) then k else k + 1)
  {
    var b, n, c := log.backups, Most(backupCount), Appended(log, data).current;
    ShiftedMost(b, backupCount, c);
    var s := Shifted(b, n, c);
    forall j ensures j in s <==> 1 <= j <= (if k < n then k + 1 else k) {
      if 1 < j <= n && j - 1 in b {
        NumbersHas(b, n, j - 1);
      }
    }
  }

  /** The tracked size is below the limit after every write exactly when the limit is positive. */
  lemma SizeBelowExact(maxSize: int, backupCount: int)
    ensures maxSize >= 1 <==> forall log, data :: AfterWrite(log, maxSize, backupCount, data).size < maxSize
  {
    if maxSize < 1 {
      var log := Log([], 0, map[]);
      assert AfterWrite(log, maxSize, backupCount, []).size == 0;
    }
  }

  /** After a rotation the backups are numbered within the number to be kept exactly when that is at least one: a
      rotation always makes a first backup. */
  lemma BoundExact(log: Log, maxSize: int, backupCount: int, data: string)
    requires LogOk(log, Most(backupCount)) && Appended(log, data).size >= maxSize
    ensures backupCount >= 1 <==>
            forall j :: j in AfterWrite(log, maxSize, backupCount, data).backups ==> 1 <= j <= backupCount
  {
    WriteKeeps(log, maxSize, backupCount, data);
    assert 1 in AfterWrite(log, maxSize, backupCount, data).backups;
  }

  // ---------------------------------------------------------------- any sequence of writes

  function Run(log: Log, maxSize: int, backupCount: int, writes: seq<string>): Log
    decreases |writes|
  {
    if writes == [] then log
    else Run(AfterWrite(log, maxSize, backupCount, writes[0]), maxSize, backupCount, writes[1..])
  }

  /** Everything written, in order. */
  function Stream(writes: seq<string>): Bytes {
    Flat(Encode, writes)
  }

  ghost predicate IsSuffix(a: Bytes, b: Bytes) {
    exists d: Bytes :: d + a == b
  }

  lemma {:induction false} RunKeeps(log: Log, maxSize: int, backupCount: int, writes: seq<string>)
    returns (dropped: Bytes)
    requires LogOk(log, Most(backupCount))
    ensures var n, last := Most(backupCount), Run(log, maxSize, backupCount, writes);
      && LogOk(last, n)
      && dropped + Kept(last, n) == Kept(log, n) + Stream(writes)
      && (maxSize >= 1 && log.size < maxSize ==> last.size < maxSize)
    decreases |writes|
  {
    var n := Most(backupCount);
    if writes == [] {
      dropped := [];
      assert [] + Kept(log, n) == Kept(log, n) + [];
    } else {
      var first := AfterWrite(log, maxSize, backupCount, writes[0]);
      var gone := Dropped(log, maxSize, backupCount, writes[0]);
      WriteKeeps(log, maxSize, backupCount, writes[0]);
      var more := RunKeeps(first, maxSize, backupCount, writes[1..]);
      dropped := gone + more;
      var last := Kept(Run(first, maxSize, backupCount, writes[1..]), n);
      ConcatAssociates(gone, more, last);
      ConcatAssociates(gone, Kept(first, n), Stream(writes[1..]));
      ConcatAssociates(Kept(log, n), Encode(writes[0]), Stream(writes[1..]));
    }
  }

  lemma {:induction false} RunNumbers(log: Log, maxSize: int, backupCount: int, writes: seq<string>, k: nat)
    returns (m: nat)
    requires Numbered(log.backups, k) && k <= Most(backupCount)
    ensures Numbered(Run(log, maxSize, backupCount, writes).backups, m) && m <= Most(backupCount)
    decreases |writes|
  {
    if writes == [] {
      m := k;
    } else {
      WriteNumbers(log, maxSize, backupCount, writes[0], k);
      m := RunNumbers(AfterWrite(log, maxSize, backupCount, writes[0]), maxSize, backupCount, writes[1..],
                      if Appended(log, writes[0]).size < maxSize || k == Most(backupCount) then k else k + 1);
    }
  }

  /** Backups without bytes add nothing. */
  lemma {:induction false} NothingIn(b: map<int, Bytes>, low: nat, high: nat)
    requires low <= high && forall j :: low < j <= high ==> At(b, j) == []
    ensures Old(b, high) == Old(b, low)
  {
    if low < high {
      NothingIn(b, low, high - 1);
      assert [] + Old(b, high - 1) == Old(b, high - 1);
    }
  }

  /** Over any writes to a fresh log the backups, oldest first, and the current file are the end of everything that
      was ever written, and they are numbered from 1 up to at most their allowed number, which is one at least. */
  lemma KeptIsSuffix(maxSize: int, backupCount: int, writes: seq<string>)
    ensures var log, n := Run(Log([], 0, map[]), maxSize, backupCount, writes), Most(backupCount);
      && IsSuffix(Kept(log, n), Stream(writes))
      && exists m: nat :: Numbered(log.backups, m) && m <= n
  {
    var start := Log([], 0, map[]);
    var dropped := RunKeeps(start, maxSize, backupCount, writes);
    var m := RunNumbers(start, maxSize, backupCount, writes, 0);
    NothingIn(start.backups, 0, Most(backupCount));
    assert Old(start.backups, Most(backupCount)) == [];
    assert [] + Stream(writes) == Stream(writes) && Kept(start, Most(backupCount)) == [] + [] == [];
  }

  // ---------------------------------------------------------------- a log that is opened again

  /** A log as it is opened: `k` is the highest number of a backup, lower ones may be missing. */
  ghost predicate Opened(log: Log, k: nat) {
    LogOk(log, k) && (k > 0 ==> k in log.backups)
  }

  /** After the writes the kept bytes, counted up to number `top`, are the end of what was there and what was
      written. */
  ghost predicate KeepsSuffix(log: Log, maxSize: int, backupCount: int, writes: seq<string>, top: nat) {
    IsSuffix(Kept(Run(log, maxSize, backupCount, writes), top), Kept(log, top) + Stream(writes))
  }

  lemma FewKeepSuffix(log: Log, maxSize: int, backupCount: int, writes: seq<string>, top: nat)
    requires LogOk(log, Most(backupCount)) && Most(backupCount) <= top
    ensures KeepsSuffix(log, maxSize, backupCount, writes, top)
  {
    var dropped := RunKeeps(log, maxSize, backupCount, writes);
    NothingIn(log.backups, Most(backupCount), top);
    NothingIn(Run(log, maxSize, backupCount, writes).backups, Most(backupCount), top);
  }

  function Held(j: int, n: nat): Bytes {
    if j == n + 1 then [1] else if j == n then [2] else []
  }

  /** A full log with more than `n` backups: the one with that number and the one above hold a byte each. */
  function Crowded(maxSize: int, k: nat, n: nat): (log: Log)
    requires 1 <= n < k
    ensures Opened(log, k) && log.size >= maxSize
    ensures forall j :: 1 <= j <= k ==> At(log.backups, j) == Held(j, n)
  {
    var size := if maxSize < 0 then 0 else maxSize;
    Log(seq(size, _ => 0), size, map j | 1 <= j <= k :: Held(j, n))
  }

  /** Only two neighbouring backups hold bytes. */
  lemma OldOfTwo(b: map<int, Bytes>, n: nat, top: nat, x: Bytes, y: Bytes)
    requires 1 <= n < top && At(b, n + 1) == x && At(b, n) == y
    requires forall j :: 1 <= j <= top && j != n && j != n + 1 ==> At(b, j) == []
    ensures Old(b, top) == x + y
  {
    NothingIn(b, n + 1, top);
    NothingIn(b, 0, n - 1);
    assert Old(b, n - 1) == [];
    assert Old(b, n) == y + [] == y;
  }

  lemma CrowdedBefore(maxSize: int, k: nat, n: nat, top: nat)
    requires 1 <= n < k <= top
    ensures var log := Crowded(maxSize, k, n); Kept(log, top) == [1, 2] + log.current
  {
    var log := Crowded(maxSize, k, n);
    OldOfTwo(log.backups, n, top, [1], [2]);
    assert [1] + [2] == [1, 2];
  }

  lemma AboveShifted(b: map<int, Bytes>, n: int, c: Bytes, j: int)
    requires 1 <= n < j
    ensures At(Shifted(b, n, c), j) == At(b, j)
  {
  }

  /** Where the backups below `n` and above `n + 1` hold nothing, a rotation leaves that one and the current file. */
  lemma OldAfter(b: map<int, Bytes>, n: nat, c: Bytes, top: nat)
    requires 1 <= n < top && forall j :: 1 <= j <= top && j != n && j != n + 1 ==> At(b, j) == []
    ensures Old(Shifted(b, n, c), top) == At(b, n + 1) + c
  {
    var s := Shifted(b, n, c);
    NothingIn(b, 0, n - 1);
    OldShifted(b, n, c, n);
    assert Old(s, n) == [] + c == c;
    forall j | n < j <= top ensures At(s, j) == At(b, j) {
      AboveShifted(b, n, c, j);
    }
    NothingIn(s, n + 1, top);
  }

  lemma CrowdedAfter(maxSize: int, k: nat, n: nat, top: nat)
    requires 1 <= n < k <= top
    ensures var log := Crowded(maxSize, k, n); Old(Shifted(log.backups, n, log.current), top) == [1] + log.current
  {
    var log := Crowded(maxSize, k, n);
    OldAfter(log.backups, n, log.current, top);
  }

  lemma SecondDiffers(d: Bytes, c: Bytes)
    ensures d + ([1] + c) != [1, 2] + c
  {
    if |d| == 1 {
      assert (d + ([1] + c))[1] == 1 && ([1, 2] + c)[1] == 2;
    }
  }

  /** Writing nothing to a full log rotates it. */
  lemma WroteNothing(log: Log, maxSize: int, backupCount: int)
    requires log.size >= maxSize
    ensures Run(log, maxSize, backupCount, [[]]) == Log([], 0, Shifted(log.backups, backupCount, log.current))
    ensures Stream([[]]) == []
  {
    assert Encode([]) == [] && log.current + [] == log.current;
    var none: seq<string> := [];
    assert [[]][1..] == none;
    assert Run(AfterWrite(log, maxSize, backupCount, []), maxSize, backupCount, none)
        == AfterWrite(log, maxSize, backupCount, []);
  }

  /** Its next rotation drops the newer of the two bytes and leaves the older. */
  lemma CrowdedSkips(maxSize: int, backupCount: int, k: nat, top: nat)
    requires Most(backupCount) < k <= top
    ensures !KeepsSuffix(Crowded(maxSize, k, Most(backupCount)), maxSize, backupCount, [[]], top)
  {
    var n := Most(backupCount);
    var log := Crowded(maxSize, k, n);
    var c := log.current;
    CrowdedBefore(maxSize, k, n, top);
    CrowdedAfter(maxSize, k, n, top);
    ShiftedMost(log.backups, backupCount, c);
    WroteNothing(log, maxSize, backupCount);
    assert [1] + c + [] == [1] + c && [1, 2] + c + [] == [1, 2] + c;
    forall d: Bytes ensures d + ([1] + c) != [1, 2] + c {
      SecondDiffers(d, c);
    }
  }

  /** Opened again, a log keeps the end of what was there and what is written, whatever its files hold and whatever
      is written, exactly when the highest number found is not above what a rotation keeps. */
  lemma ReopenedExact(maxSize: int, backupCount: int, k: nat, top: nat)
    requires k <= top && Most(backupCount) <= top
    ensures k <= Most(backupCount) <==>
      forall log, writes {:trigger KeepsSuffix(log, maxSize, backupCount, writes, top)} ::
        Opened(log, k) ==> KeepsSuffix(log, maxSize, backupCount, writes, top)
  {
    if k <= Most(backupCount) {
      forall log, writes | Opened(log, k) ensures KeepsSuffix(log, maxSize, backupCount, writes, top) {
        FewKeepSuffix(log, maxSize, backupCount, writes, top);
      }
    } else {
      CrowdedSkips(maxSize, backupCount, k, top);
    }
  }

  /** A write appends its bytes; while the tracked size stays below the limit nothing else happens, and as soon as it
      does not, the current file becomes the first backup, every backup below the last moves up by one, the last is
      gone, and the current file starts empty. */
  lemma WriteExact(log: Log, maxSize: int, backupCount: int, data: string)
    requires Within(log.backups, Most(backupCount))
    ensures var after, bytes, n := AfterWrite(log, maxSize, backupCount, data), log.current + Encode(data),
                                   if backupCount >= 1 then backupCount else 1;
      if log.size + |Encode(data)| < maxSize then
        after == Log(bytes, log.size + |Encode(data)|, log.backups)
      else
        && after.current == [] && after.size == 0
        && 1 in after.backups && after.backups[1] == bytes
        && forall j :: j != 1 ==>
             (j in after.backups <==> 2 <= j <= n && j - 1 in log.backups)
             && (j in after.backups ==> after.backups[j] == log.backups[j - 1])
  {
    var b, n, c := log.backups, Most(backupCount), log.current + Encode(data);
    ShiftedMost(b, backupCount, c);
    var s := Shifted(b, n, c);
    forall j | j != 1
      ensures (j in s <==> 2 <= j <= n && j - 1 in b) && (j in s ==> s[j] == b[j - 1])
    {
      if 2 <= j <= n && j - 1 in b {
        NumbersHas(b, n, j - 1);
      }
    }
  }
}
