/** Which tool calls run, and one answer and verdict for each. */
module ToolGate {
  import opened Folds

  type Id = string

  datatype Call = Call(id: Id, name: string, args: string)

  datatype Ruling = Allow | Confirm | Deny

  /** What `evaluate_tool_call` says of a call. */
  datatype Decision = Decision(ruling: Ruling, reason: string, autoAllowed: bool)

  /** What the approver answered about a call id. */
  datatype Answer = Answer(callId: Id, approved: bool)

  datatype Message = Message(content: string, callId: Id)

  /** What invoking a tool ends in. */
  datatype Outcome = Value(text: string) | Raised(error: string) | TimedOut

  /** Everything the node works on: the calls, a decision for each, whether an approver is there and what it
      answered, the tools there are, how invoking each call would end, and the timeout as it is printed. */
  datatype Turn = Turn(
    calls: seq<Call>, decisions: seq<Decision>, hasApprover: bool, answers: seq<Answer>,
    tools: set<string>, outcomes: seq<Outcome>, timeout: string)

  predicate Valid(t: Turn) {
    |t.decisions| == |t.calls| == |t.outcomes|
  }

  predicate Approved(id: Id, answers: seq<Answer>) {
    exists k :: 0 <= k < |answers| && answers[k].callId == id && answers[k].approved
  }

  predicate Allowed(t: Turn, i: nat)
    requires Valid(t)
  {
    i < |t.calls| && t.decisions[i].ruling.Allow?
  }

  predicate NeedsConfirming(t: Turn, i: nat)
    requires Valid(t)
  {
    i < |t.calls| && t.decisions[i].ruling.Confirm?
  }

  predicate Confirmed(t: Turn, i: nat)
    requires Valid(t)
  {
    i < |t.calls| && t.decisions[i].ruling.Confirm? && t.hasApprover && Approved(t.calls[i].id, t.answers)
  }

  predicate Forbidden(t: Turn, i: nat)
    requires Valid(t)
  {
    i < |t.calls| && t.decisions[i].ruling.Deny?
  }

  predicate Refused(t: Turn, i: nat)
    requires Valid(t)
  {
    i < |t.calls| && t.decisions[i].ruling.Confirm? && !Confirmed(t, i)
  }

  /** A call runs if it is allowed, or if it needs confirming and an approver is there who approved it. */
  predicate Runs(t: Turn, i: nat)
    requires Valid(t)
  {
    Allowed(t, i) || Confirmed(t, i)
  }

  function ForbiddenText(reason: string): string {
    "Error: 权限拒绝: " + reason
  }

  function UnattendedText(reason: string): string {
    "Error: 权限拒绝（无人值守）: " + reason
  }

  function RefusedText(name: string): string {
    "Error: 用户拒绝了该操作: " + name
  }

  function DenialText(t: Turn, i: nat): string
    requires Valid(t) && i < |t.calls|
  {
    var d := t.decisions[i];
    if d.ruling.Deny? then ForbiddenText(d.reason)
    else if !t.hasApprover then UnattendedText(d.reason)
    else RefusedText(t.calls[i].name)
  }

  function Denial(t: Turn, i: nat): Message
    requires Valid(t) && i < |t.calls|
  {
    Message(DenialText(t, i), t.calls[i].id)
  }

  /** `_invoke_one`. */
  function Invoke(tools: set<string>, timeout: string, call: Call, outcome: Outcome): Message {
    Message(
      if call.name !in tools then "Error: Unknown tool '" + call.name + "'"
      else match outcome
        case TimedOut => "Error: tool '" + call.name + "' timed out after " + timeout + "s"
        case Raised(e) => "Error executing tool '" + call.name + "': " + e
        case Value(v) => v,
      call.id)
  }

  /** The message that is call `i`'s own. */
  function Own(t: Turn, i: nat): Message
    requires Valid(t) && i < |t.calls|
  {
    if Runs(t, i) then Invoke(t.tools, t.timeout, t.calls[i], t.outcomes[i]) else Denial(t, i)
  }

  // ---------------------------------------------------------------- verdicts

  /** What the gate records about a call id. */
  datatype Verdict = Passed | PassedByHand | PassedByMode(reason: string) | Blocked(reason: string)

  /** The verdict of the branch a call goes through. */
  function BranchVerdict(t: Turn, i: nat): Verdict
    requires Valid(t) && i < |t.calls|
  {
    var d := t.decisions[i];
    match d.ruling
    case Allow => Passed
    case Deny => Blocked(d.reason)
    case Confirm =>
      if !t.hasApprover then Blocked(d.reason)
      else if Approved(t.calls[i].id, t.answers) then PassedByHand
      else Blocked("user_denied")
  }

  function ModeVerdict(t: Turn, i: nat): Verdict
    requires Valid(t) && i < |t.calls|
  {
    PassedByMode(t.decisions[i].reason)
  }

  /** The verdict that is call `i`'s own: an automatic pass is marked as such. */
  function OwnVerdict(t: Turn, i: nat): Verdict
    requires Valid(t) && i < |t.calls|
  {
    if t.decisions[i].autoAllowed then ModeVerdict(t, i) else BranchVerdict(t, i)
  }

  function BranchVerdicts(t: Turn): (values: seq<Verdict>)
    requires Valid(t)
    ensures |values| == |t.calls|
  {
    seq(|t.calls|, i requires 0 <= i < |t.calls| => BranchVerdict(t, i))
  }

  function ModeVerdicts(t: Turn): (values: seq<Verdict>)
    requires Valid(t)
    ensures |values| == |t.calls|
  {
    seq(|t.calls|, i requires 0 <= i < |t.calls| => ModeVerdict(t, i))
  }

  /** Recording the verdicts of the calls at some positions, one after the other. */
  function Record(calls: seq<Call>, values: seq<Verdict>, verdicts: map<Id, Verdict>, at: seq<nat>): map<Id, Verdict>
    requires |values| == |calls| && forall k :: 0 <= k < |at| ==> at[k] < |calls|
  {
    if at == [] then verdicts
    else
      var n := |at| - 1;
      Record(calls, values, verdicts, at[..n])[calls[at[n]].id := values[at[n]]]
  }

  lemma {:induction false} RecordConcat(calls: seq<Call>, values: seq<Verdict>, verdicts: map<Id, Verdict>,
                                        a: seq<nat>, b: seq<nat>)
    requires |values| == |calls| && forall k :: 0 <= k < |a + b| ==> (a + b)[k] < |calls|
    requires (forall k :: 0 <= k < |a| ==> a[k] < |calls|) && forall k :: 0 <= k < |b| ==> b[k] < |calls|
    ensures Record(calls, values, verdicts, a + b) == Record(calls, values, Record(calls, values, verdicts, a), b)
  {
    if b == [] {
      assert a + b == a;
    } else {
      var n := |b| - 1;
      assert (a + b)[..|a + b| - 1] == a + b[..n];
      forall k | 0 <= k < |a + b[..n]| ensures (a + b[..n])[k] < |calls| {
        assert (a + b[..n])[k] == (a + b)[k];
      }
      RecordConcat(calls, values, verdicts, a, b[..n]);
    }
  }

  lemma RecordNext(calls: seq<Call>, values: seq<Verdict>, verdicts: map<Id, Verdict>, at: seq<nat>, k: nat)
    requires |values| == |calls| && k < |at| && forall k :: 0 <= k < |at| ==> at[k] < |calls|
    ensures Record(calls, values, verdicts, at[..k + 1])
         == Record(calls, values, verdicts, at[..k])[calls[at[k]].id := values[at[k]]]
  {
    assert at[..k + 1][..k] == at[..k];
  }

  lemma RecordSnoc(calls: seq<Call>, values: seq<Verdict>, verdicts: map<Id, Verdict>, at: seq<nat>, i: nat)
    requires |values| == |calls| && i < |calls| && forall k :: 0 <= k < |at| ==> at[k] < |calls|
    ensures Record(calls, values, verdicts, at + [i])
         == Record(calls, values, verdicts, at)[calls[i].id := values[i]]
  {
    assert (at + [i])[..|at|] == at;
  }

  // ---------------------------------------------------------------- positions

  /** The positions that are flagged, ascending. */
  function Where(flags: seq<bool>): (at: seq<nat>)
    ensures forall k :: 0 <= k < |at| ==> at[k] < |flags|
  {
    if flags == [] then []
    else
      var n := |flags| - 1;
      if flags[n] then Where(flags[..n]) + [n] else Where(flags[..n])
  }

  lemma WhereNext(flags: seq<bool>, i: nat)
    requires i < |flags|
    ensures Where(flags[..i + 1]) == if flags[i] then Where(flags[..i]) + [i] else Where(flags[..i])
  {
    assert flags[..i + 1][..i] == flags[..i];
  }

  ghost predicate Rising(xs: seq<nat>) {
    forall j, k :: 0 <= j < k < |xs| ==> xs[j] < xs[k]
  }

  lemma {:induction false} WhereExact(flags: seq<bool>)
    ensures Rising(Where(flags)) && forall x: nat :: x in Where(flags) <==> x < |flags| && flags[x]
  {
    if flags != [] {
      var n := |flags| - 1;
      var w := Where(flags[..n]);
      WhereExact(flags[..n]);
      forall k | 0 <= k < |w| ensures w[k] < n {
        assert w[k] in w;
      }
    }
  }

  function InsertRising(x: nat, xs: seq<nat>): seq<nat> {
    if xs == [] then [x] else if x <= xs[0] then [x] + xs else [xs[0]] + InsertRising(x, xs[1..])
  }

  /** `sorted`. */
  function Sorted(xs: seq<nat>): seq<nat> {
    if xs == [] then [] else InsertRising(xs[0], Sorted(xs[1..]))
  }

  lemma RisingCons(x: nat, xs: seq<nat>)
    requires Rising(xs) && forall y :: y in xs ==> x < y
    ensures Rising([x] + xs)
  {
    assert forall k :: 0 <= k < |xs| ==> xs[k] in xs;
  }

  lemma RisingHead(xs: seq<nat>)
    requires Rising(xs) && xs != []
    ensures Rising(xs[1..]) && (forall y :: y in xs[1..] ==> xs[0] < y)
    ensures forall y :: y in xs <==> y == xs[0] || y in xs[1..]
  {
    assert xs == [xs[0]] + xs[1..];
  }

  lemma {:induction false} InsertExact(x: nat, xs: seq<nat>)
    requires Rising(xs) && x !in xs
    ensures Rising(InsertRising(x, xs)) && forall y :: y in InsertRising(x, xs) <==> y == x || y in xs
  {
    if xs != [] {
      RisingHead(xs);
      if x < xs[0] {
        RisingCons(x, xs);
      } else {
        InsertExact(x, xs[1..]);
        RisingCons(xs[0], InsertRising(x, xs[1..]));
      }
    }
  }

  ghost predicate NoRepeats(xs: seq<nat>) {
    forall j, k :: 0 <= j < k < |xs| ==> xs[j] != xs[k]
  }

  lemma {:induction false} SortedExact(xs: seq<nat>)
    requires NoRepeats(xs)
    ensures Rising(Sorted(xs)) && forall y :: y in Sorted(xs) <==> y in xs
  {
    if xs != [] {
      SortedExact(xs[1..]);
      InsertExact(xs[0], Sorted(xs[1..]));
      assert xs == [xs[0]] + xs[1..];
    }
  }

  lemma {:induction false} RisingUnique(a: seq<nat>, b: seq<nat>)
    requires Rising(a) && Rising(b) && forall y :: y in a <==> y in b
    ensures a == b
  {
    assert b != [] ==> b[0] in b;
    if a != [] {
      assert a[0] in b;
      assert b[0] in a;
      RisingHead(a);
      RisingHead(b);
      RisingUnique(a[1..], b[1..]);
      assert a == [a[0]] + a[1..] && b == [b[0]] + b[1..];
    }
  }

  lemma DisjointNoRepeats(a: seq<nat>, b: seq<nat>)
    requires Rising(a) && Rising(b) && forall x :: x in a ==> x !in b
    ensures NoRepeats(a + b)
  {
    assert forall j :: 0 <= j < |a| ==> (a + b)[j] in a;
    assert forall k :: |a| <= k < |a + b| ==> (a + b)[k] == b[k - |a|] && (a + b)[k] in b;
  }

  lemma EitherExact(p: seq<bool>, q: seq<bool>, r: seq<bool>)
    requires |p| == |q| == |r| && forall x :: 0 <= x < |r| ==> !(p[x] && q[x]) && (r[x] <==> p[x] || q[x])
    ensures NoRepeats(Where(p) + Where(q)) && Rising(Where(r))
    ensures forall y :: y in Where(p) + Where(q) <==> y in Where(r)
  {
    WhereExact(p);
    WhereExact(q);
    WhereExact(r);
    DisjointNoRepeats(Where(p), Where(q));
  }

  /** Positions collected by one test after the other, once sorted, are those collected by either. */
  lemma SortedWhere(p: seq<bool>, q: seq<bool>, r: seq<bool>)
    requires |p| == |q| == |r| && forall x :: 0 <= x < |r| ==> !(p[x] && q[x]) && (r[x] <==> p[x] || q[x])
    ensures Sorted(Where(p) + Where(q)) == Where(r)
  {
    EitherExact(p, q, r);
    SortedExact(Where(p) + Where(q));
    RisingUnique(Sorted(Where(p) + Where(q)), Where(r));
  }

  // ---------------------------------------------------------------- the gate

  function AllowFlags(t: Turn): (flags: seq<bool>)
    requires Valid(t)
    ensures |flags| == |t.calls|
  {
    seq(|t.calls|, i requires 0 <= i < |t.calls| => Allowed(t, i))
  }

  function ForbidFlags(t: Turn): (flags: seq<bool>)
    requires Valid(t)
    ensures |flags| == |t.calls|
  {
    seq(|t.calls|, i requires 0 <= i < |t.calls| => Forbidden(t, i))
  }

  function PendingFlags(t: Turn): (flags: seq<bool>)
    requires Valid(t)
    ensures |flags| == |t.calls|
  {
    seq(|t.calls|, i requires 0 <= i < |t.calls| => NeedsConfirming(t, i))
  }

  function ConfirmFlags(t: Turn): (flags: seq<bool>)
    requires Valid(t)
    ensures |flags| == |t.calls|
  {
    seq(|t.calls|, i requires 0 <= i < |t.calls| => Confirmed(t, i))
  }

  function RefuseFlags(t: Turn): (flags: seq<bool>)
    requires Valid(t)
    ensures |flags| == |t.calls|
  {
    seq(|t.calls|, i requires 0 <= i < |t.calls| => Refused(t, i))
  }

  function RunFlags(t: Turn): (flags: seq<bool>)
    requires Valid(t)
    ensures |flags| == |t.calls|
  {
    seq(|t.calls|, i requires 0 <= i < |t.calls| => Runs(t, i))
  }

  function AutoFlags(t: Turn): (flags: seq<bool>)
    requires Valid(t)
    ensures |flags| == |t.calls|
  {
    seq(|t.calls|, i requires 0 <= i < |t.calls| => t.decisions[i].autoAllowed)
  }

  /** The denials of the calls at some positions. */
  function Denials(t: Turn, at: seq<nat>): seq<Message>
    requires Valid(t) && forall k :: 0 <= k < |at| ==> at[k] < |t.calls|
  {
    seq(|at|, k requires 0 <= k < |at| => Denial(t, at[k]))
  }

  /** The gate's result: the positions of the calls that run, in call order, and the denials, those of forbidden
      calls first. */
  function Exec(t: Turn): seq<nat>
    requires Valid(t)
  {
    Where(RunFlags(t))
  }

  function Denied(t: Turn): seq<Message>
    requires Valid(t)
  {
    Denials(t, Where(ForbidFlags(t))) + Denials(t, Where(RefuseFlags(t)))
  }

  /** The verdicts of the calls at some positions, by branch. */
  function Judged(t: Turn, verdicts: map<Id, Verdict>, at: seq<nat>): map<Id, Verdict>
    requires Valid(t) && forall k :: 0 <= k < |at| ==> at[k] < |t.calls|
  {
    Record(t.calls, BranchVerdicts(t), verdicts, at)
  }

  function Marked(t: Turn, verdicts: map<Id, Verdict>, at: seq<nat>): map<Id, Verdict>
    requires Valid(t) && forall k :: 0 <= k < |at| ==> at[k] < |t.calls|
  {
    Record(t.calls, ModeVerdicts(t), verdicts, at)
  }

  function AllowedVerdicts(t: Turn): map<Id, Verdict>
    requires Valid(t)
  {
    Judged(t, map[], Where(AllowFlags(t)))
  }

  function OutrightVerdicts(t: Turn): map<Id, Verdict>
    requires Valid(t)
  {
    Judged(t, AllowedVerdicts(t), Where(ForbidFlags(t)))
  }

  /** The verdicts in the order the gate records them: allowed, forbidden, pending, automatic. */
  function Verdicts(t: Turn): map<Id, Verdict>
    requires Valid(t)
  {
    Marked(t, Judged(t, OutrightVerdicts(t), Where(PendingFlags(t))), Where(AutoFlags(t)))
  }

  method IsApproved(id: Id, answers: seq<Answer>) returns (yes: bool)
    ensures yes == Approved(id, answers)
  {
    for k := 0 to |answers|
      invariant !Approved(id, answers[..k])
    {
      if answers[k].callId == id && answers[k].approved {
        return true;
      }
    }
    return false;
  }

  /** The calls that are allowed outright. */
  method CollectAllowed(t: Turn) returns (exec: seq<nat>)
    requires Valid(t)
    ensures exec == Where(AllowFlags(t))
  {
    exec := [];
    ghost var flags := AllowFlags(t);
    for i := 0 to |t.calls|
      invariant exec == Where(flags[..i])
    {
      WhereNext(flags, i);
      if t.decisions[i].ruling.Allow? {
        exec := exec + [i];
      }
    }
    assert flags[..|t.calls|] == flags;
  }

  lemma AllowedAt(t: Turn, exec: seq<nat>)
    requires Valid(t) && exec == Where(AllowFlags(t))
    ensures forall k :: 0 <= k < |exec| ==> exec[k] < |t.calls| && t.decisions[exec[k]].ruling.Allow?
  {
    WhereExact(AllowFlags(t));
    assert forall k :: 0 <= k < |exec| ==> exec[k] in exec;
  }

  /** The verdicts of the calls that are allowed outright. */
  method PassAllowed(t: Turn, exec: seq<nat>) returns (verdicts: map<Id, Verdict>)
    requires Valid(t) && exec == Where(AllowFlags(t))
    ensures verdicts == AllowedVerdicts(t)
  {
    verdicts := map[];
    AllowedAt(t, exec);
    for k := 0 to |exec|
      invariant verdicts == Judged(t, map[], exec[..k])
    {
      RecordNext(t.calls, BranchVerdicts(t), map[], exec, k);
      verdicts := verdicts[t.calls[exec[k]].id := Passed];
    }
    assert exec[..|exec|] == exec;
  }

  lemma DenialsSnoc(t: Turn, at: seq<nat>, i: nat)
    requires Valid(t) && i < |t.calls| && forall k :: 0 <= k < |at| ==> at[k] < |t.calls|
    ensures Denials(t, at + [i]) == Denials(t, at) + [Denial(t, i)]
  {
  }

  lemma DenyOne(t: Turn, verdicts: map<Id, Verdict>, at: seq<nat>, i: nat)
    requires Valid(t) && i < |t.calls| && t.decisions[i].ruling.Deny? && forall k :: 0 <= k < |at| ==> at[k] < |t.calls|
    ensures Denials(t, at + [i]) == Denials(t, at) + [Message(ForbiddenText(t.decisions[i].reason), t.calls[i].id)]
    ensures Judged(t, verdicts, at + [i])
         == Judged(t, verdicts, at)[t.calls[i].id := Blocked(t.decisions[i].reason)]
  {
    DenialsSnoc(t, at, i);
    RecordSnoc(t.calls, BranchVerdicts(t), verdicts, at, i);
  }

  /** The denials and verdicts of the calls that are forbidden outright. */
  method DenyForbidden(t: Turn, verdicts0: map<Id, Verdict>)
    returns (denied: seq<Message>, verdicts: map<Id, Verdict>)
    requires Valid(t)
    ensures denied == Denials(t, Where(ForbidFlags(t)))
    ensures verdicts == Judged(t, verdicts0, Where(ForbidFlags(t)))
  {
    denied, verdicts := [], verdicts0;
    ghost var flags := ForbidFlags(t);
    ghost var at: seq<nat> := [];
    for i := 0 to |t.calls|
      invariant at == Where(flags[..i]) && (forall k :: 0 <= k < |at| ==> at[k] < |t.calls|)
      invariant denied == Denials(t, at) && verdicts == Judged(t, verdicts0, at)
    {
      WhereNext(flags, i);
      if t.decisions[i].ruling.Deny? {
        DenyOne(t, verdicts0, at, i);
        denied := denied + [Message(ForbiddenText(t.decisions[i].reason), t.calls[i].id)];
        verdicts := verdicts[t.calls[i].id := Blocked(t.decisions[i].reason)];
        at := at + [i];
      }
    }
    assert flags[..|t.calls|] == flags;
  }

  method CollectPending(t: Turn) returns (pending: seq<nat>)
    requires Valid(t)
    ensures pending == Where(PendingFlags(t))
  {
    pending := [];
    ghost var flags := PendingFlags(t);
    for i := 0 to |t.calls|
      invariant pending == Where(flags[..i])
    {
      WhereNext(flags, i);
      if t.decisions[i].ruling.Confirm? {
        pending := pending + [i];
      }
    }
    assert flags[..|t.calls|] == flags;
  }

  /** The positions of a list that are flagged. */
  function Keep(xs: seq<nat>, flags: seq<bool>): (at: seq<nat>)
    ensures forall k :: 0 <= k < |at| ==> at[k] < |flags|
  {
    if xs == [] then []
    else
      var n := |xs| - 1;
      if xs[n] < |flags| && flags[xs[n]] then Keep(xs[..n], flags) + [xs[n]] else Keep(xs[..n], flags)
  }

  lemma KeepNext(xs: seq<nat>, flags: seq<bool>, k: nat)
    requires k < |xs|
    ensures Keep(xs[..k + 1], flags)
         == if xs[k] < |flags| && flags[xs[k]] then Keep(xs[..k], flags) + [xs[k]] else Keep(xs[..k], flags)
  {
    assert xs[..k + 1][..k] == xs[..k];
  }

  lemma KeepLast(xs: seq<nat>, flags: seq<bool>, x: nat)
    requires x < |flags|
    ensures Keep(xs + [x], flags) == if flags[x] then Keep(xs, flags) + [x] else Keep(xs, flags)
  {
    assert (xs + [x])[..|xs|] == xs;
  }

  lemma KeepWhereNext(p: seq<bool>, flags: seq<bool>, n: nat)
    requires n < |p| == |flags| && (flags[n] ==> p[n])
    requires Keep(Where(p[..n]), flags) == Where(flags[..n])
    ensures Keep(Where(p[..n + 1]), flags) == Where(flags[..n + 1])
  {
    WhereNext(p, n);
    WhereNext(flags, n);
    KeepLast(Where(p[..n]), flags, n);
  }

  /** Keeping the flagged ones of the pending positions finds all of them, as only pending ones are flagged. */
  lemma {:induction false} KeepWhere(p: seq<bool>, flags: seq<bool>, n: nat)
    requires n <= |p| == |flags| && forall x :: 0 <= x < |p| && flags[x] ==> p[x]
    ensures Keep(Where(p[..n]), flags) == Where(flags[..n])
  {
    if n > 0 {
      KeepWhere(p, flags, n - 1);
      KeepWhereNext(p, flags, n - 1);
    }
  }

  lemma KeepPending(t: Turn)
    requires Valid(t)
    ensures Keep(Where(PendingFlags(t)), ConfirmFlags(t)) == Where(ConfirmFlags(t))
    ensures Keep(Where(PendingFlags(t)), RefuseFlags(t)) == Where(RefuseFlags(t))
  {
    var p, c, r, n := PendingFlags(t), ConfirmFlags(t), RefuseFlags(t), |t.calls|;
    KeepWhere(p, c, n);
    KeepWhere(p, r, n);
    assert p[..n] == p && c[..n] == c && r[..n] == r;
  }

  lemma PendingAt(t: Turn, pending: seq<nat>)
    requires Valid(t) && pending == Where(PendingFlags(t))
    ensures forall k :: 0 <= k < |pending| ==> pending[k] < |t.calls| && t.decisions[pending[k]].ruling.Confirm?
  {
    WhereExact(PendingFlags(t));
    assert forall k :: 0 <= k < |pending| ==> pending[k] in pending;
  }

  lemma {:induction false} WhereNone(flags: seq<bool>)
    requires forall x :: 0 <= x < |flags| ==> !flags[x]
    ensures Where(flags) == []
  {
    if flags != [] {
      WhereNone(flags[..|flags| - 1]);
    }
  }

  lemma NobodyConfirmed(t: Turn)
    requires Valid(t) && !t.hasApprover
    ensures Where(ConfirmFlags(t)) == [] && RefuseFlags(t) == PendingFlags(t)
  {
    WhereNone(ConfirmFlags(t));
  }

  lemma NonePending(t: Turn)
    requires Valid(t) && Where(PendingFlags(t)) == []
    ensures Where(ConfirmFlags(t)) == [] && Where(RefuseFlags(t)) == []
  {
    KeepPending(t);
  }

  /** Sorting what was allowed together with what was confirmed restores the order of the calls. */
  lemma ExecSorted(t: Turn)
    requires Valid(t)
    ensures Sorted(Where(AllowFlags(t)) + Where(ConfirmFlags(t))) == Exec(t)
  {
    SortedWhere(AllowFlags(t), ConfirmFlags(t), RunFlags(t));
  }

  method RefuseEach(t: Turn, pending: seq<nat>, verdicts0: map<Id, Verdict>)
    returns (denied: seq<Message>, verdicts: map<Id, Verdict>)
    requires Valid(t) && !t.hasApprover
    requires forall k :: 0 <= k < |pending| ==> pending[k] < |t.calls| && t.decisions[pending[k]].ruling.Confirm?
    ensures denied == Denials(t, pending) && verdicts == Judged(t, verdicts0, pending)
  {
    denied, verdicts := [], verdicts0;
    for k := 0 to |pending|
      invariant denied == Denials(t, pending[..k]) && verdicts == Judged(t, verdicts0, pending[..k])
    {
      var i := pending[k];
      RecordNext(t.calls, BranchVerdicts(t), verdicts0, pending, k);
      denied := denied + [Message(UnattendedText(t.decisions[i].reason), t.calls[i].id)];
      verdicts := verdicts[t.calls[i].id := Blocked(t.decisions[i].reason)];
    }
    assert pending[..|pending|] == pending;
  }

  /** The pending calls with nobody to approve them: all are denied. */
  method RefuseAll(t: Turn, pending: seq<nat>, verdicts0: map<Id, Verdict>)
    returns (denied: seq<Message>, verdicts: map<Id, Verdict>)
    requires Valid(t) && pending == Where(PendingFlags(t)) && !t.hasApprover
    ensures denied == Denials(t, Where(RefuseFlags(t))) && Where(ConfirmFlags(t)) == []
    ensures verdicts == Judged(t, verdicts0, pending)
  {
    NobodyConfirmed(t);
    PendingAt(t, pending);
    denied, verdicts := RefuseEach(t, pending, verdicts0);
  }

  lemma KeepAnswered(t: Turn, pending: seq<nat>, k: nat)
    requires Valid(t) && t.hasApprover && k < |pending|
    requires pending[k] < |t.calls| && t.decisions[pending[k]].ruling.Confirm?
    ensures var i, c, r := pending[k], ConfirmFlags(t), RefuseFlags(t);
      if Approved(t.calls[i].id, t.answers) then
        Keep(pending[..k + 1], c) == Keep(pending[..k], c) + [i] && Keep(pending[..k + 1], r) == Keep(pending[..k], r)
      else
        Keep(pending[..k + 1], c) == Keep(pending[..k], c) && Keep(pending[..k + 1], r) == Keep(pending[..k], r) + [i]
  {
    KeepNext(pending, ConfirmFlags(t), k);
    KeepNext(pending, RefuseFlags(t), k);
  }

  lemma JudgeAnswered(t: Turn, verdicts: map<Id, Verdict>, pending: seq<nat>, k: nat)
    requires Valid(t) && t.hasApprover && k < |pending| && forall j :: 0 <= j < |pending| ==> pending[j] < |t.calls|
    requires t.decisions[pending[k]].ruling.Confirm?
    ensures var id := t.calls[pending[k]].id;
      Judged(t, verdicts, pending[..k + 1]) == Judged(t, verdicts, pending[..k])[
        id := if Approved(id, t.answers) then PassedByHand else Blocked("user_denied")]
  {
    RecordNext(t.calls, BranchVerdicts(t), verdicts, pending, k);
  }

  method SortEach(t: Turn, pending: seq<nat>, verdicts0: map<Id, Verdict>)
    returns (exec: seq<nat>, denied: seq<Message>, verdicts: map<Id, Verdict>)
    requires Valid(t) && t.hasApprover
    requires forall k :: 0 <= k < |pending| ==> pending[k] < |t.calls| && t.decisions[pending[k]].ruling.Confirm?
    ensures exec == Keep(pending, ConfirmFlags(t))
    ensures denied == Denials(t, Keep(pending, RefuseFlags(t)))
    ensures verdicts == Judged(t, verdicts0, pending)
  {
    exec, denied, verdicts := [], [], verdicts0;
    ghost var c, r := ConfirmFlags(t), RefuseFlags(t);
    ghost var at: seq<nat> := [];
    for k := 0 to |pending|
      invariant exec == Keep(pending[..k], c) && at == Keep(pending[..k], r)
      invariant (forall j :: 0 <= j < |at| ==> at[j] < |t.calls|) && denied == Denials(t, at)
      invariant verdicts == Judged(t, verdicts0, pending[..k])
    {
      var i := pending[k];
      KeepAnswered(t, pending, k);
      JudgeAnswered(t, verdicts0, pending, k);
      var approved := IsApproved(t.calls[i].id, t.answers);
      if approved {
        exec := exec + [i];
        verdicts := verdicts[t.calls[i].id := PassedByHand];
      } else {
        DenialsSnoc(t, at, i);
        denied := denied + [Message(RefusedText(t.calls[i].name), t.calls[i].id)];
        verdicts := verdicts[t.calls[i].id := Blocked("user_denied")];
        at := at + [i];
      }
    }
    assert pending[..|pending|] == pending;
  }

  /** The pending calls after the approver has answered. */
  method SortAnswers(t: Turn, pending: seq<nat>, verdicts0: map<Id, Verdict>)
    returns (exec: seq<nat>, denied: seq<Message>, verdicts: map<Id, Verdict>)
    requires Valid(t) && pending == Where(PendingFlags(t)) && t.hasApprover
    ensures exec == Where(ConfirmFlags(t)) && denied == Denials(t, Where(RefuseFlags(t)))
    ensures verdicts == Judged(t, verdicts0, pending)
  {
    PendingAt(t, pending);
    KeepPending(t);
    exec, denied, verdicts := SortEach(t, pending, verdicts0);
  }

  /** The last loop: automatic passes are marked, whatever was recorded before. */
  method MarkAutomatic(t: Turn, verdicts0: map<Id, Verdict>) returns (verdicts: map<Id, Verdict>)
    requires Valid(t)
    ensures verdicts == Marked(t, verdicts0, Where(AutoFlags(t)))
  {
    verdicts := verdicts0;
    ghost var flags := AutoFlags(t);
    ghost var at: seq<nat> := [];
    for i := 0 to |t.calls|
      invariant at == Where(flags[..i]) && (forall k :: 0 <= k < |at| ==> at[k] < |t.calls|)
      invariant verdicts == Marked(t, verdicts0, at)
    {
      WhereNext(flags, i);
      if t.decisions[i].autoAllowed {
        verdicts := verdicts[t.calls[i].id := PassedByMode(t.decisions[i].reason)];
        RecordSnoc(t.calls, ModeVerdicts(t), verdicts0, at, i);
        at := at + [i];
      }
    }
    assert flags[..|t.calls|] == flags;
  }

  /** `_permission_gate`, resumed with the approver's answers where it asks for them. */
  method PermissionGate(t: Turn) returns (exec: seq<nat>, verdicts: map<Id, Verdict>, denied: seq<Message>)
    requires Valid(t)
    ensures exec == Exec(t) && verdicts == Verdicts(t) && denied == Denied(t)
  {
    exec := CollectAllowed(t);
    verdicts := PassAllowed(t, exec);
    denied, verdicts := DenyForbidden(t, verdicts);
    var pending := CollectPending(t);
    if pending != [] {
      if !t.hasApprover {
        var refused;
        refused, verdicts := RefuseAll(t, pending, verdicts);
        denied := denied + refused;
      } else {
        var more, refused;
        more, refused, verdicts := SortAnswers(t, pending, verdicts);
        exec, denied := exec + more, denied + refused;
      }
    } else {
      NonePending(t);
    }
    assert Where(AllowFlags(t)) + [] == Where(AllowFlags(t));
    assert Denials(t, Where(ForbidFlags(t))) + [] == Denials(t, Where(ForbidFlags(t)));
    verdicts := MarkAutomatic(t, verdicts);
    ExecSorted(t);
    exec := Sorted(exec);
  }

  // ---------------------------------------------------------------- the node

  /** `tool_node`: `gather` keeps the order, so one message per call it is given, aligned with the calls. */
  function ToolNode(t: Turn, exec: seq<nat>): seq<Message>
    requires Valid(t) && forall k :: 0 <= k < |exec| ==> exec[k] < |t.calls|
  {
    seq(|exec|, k requires 0 <= k < |exec| => Invoke(t.tools, t.timeout, t.calls[exec[k]], t.outcomes[exec[k]]))
  }

  /** `{tm.tool_call_id: tm for tm in messages}`: the last message of an id wins. */
  function ById(messages: seq<Message>): map<Id, Message> {
    if messages == [] then map[]
    else var last := messages[|messages| - 1]; ById(messages[..|messages| - 1])[last.callId := last]
  }

  /** The message a call is answered with. */
  function Pick(executed: map<Id, Message>, denied: map<Id, Message>, call: Call): seq<Message> {
    if call.id in executed then [executed[call.id]]
    else if call.id in denied then [denied[call.id]]
    else []
  }

  function Merged(executed: map<Id, Message>, denied: map<Id, Message>, calls: seq<Call>): seq<Message> {
    Flat((c: Call) => Pick(executed, denied, c), calls)
  }

  /** The messages the turn's tool node returns. */
  function Answers(t: Turn): seq<Message>
    requires Valid(t)
  {
    Merged(ById(ToolNode(t, Exec(t))), ById(Denied(t)), t.calls)
  }

  method Index(messages: seq<Message>) returns (byId: map<Id, Message>)
    ensures byId == ById(messages)
  {
    byId := map[];
    for k := 0 to |messages|
      invariant byId == ById(messages[..k])
    {
      assert messages[..k + 1][..k] == messages[..k];
      byId := byId[messages[k].callId := messages[k]];
    }
    assert messages[..|messages|] == messages;
  }

  /** The merge: the executed and the denied messages in the order of the calls. */
  method Merge(executed: map<Id, Message>, denied: map<Id, Message>, calls: seq<Call>)
    returns (ordered: seq<Message>)
    ensures ordered == Merged(executed, denied, calls)
  {
    ordered := [];
    ghost var f := (c: Call) => Pick(executed, denied, c);
    for k := 0 to |calls|
      invariant ordered == Flat(f, calls[..k])
    {
      FlatNext(f, calls, k);
      assert ordered + [] == ordered;
      if calls[k].id in executed {
        ordered := ordered + [executed[calls[k].id]];
      } else if calls[k].id in denied {
        ordered := ordered + [denied[calls[k].id]];
      }
    }
    assert calls[..|calls|] == calls;
  }

  /** `_tool_node_node`, its trace and its events aside. */
  method ToolNodeNode(t: Turn) returns (ordered: seq<Message>)
    requires Valid(t)
    ensures ordered == Answers(t)
  {
    var exec, verdicts, denied := PermissionGate(t);
    var executed := ToolNode(t, exec);
    var executedById := Index(executed);
    var deniedById := Index(denied);
    ordered := Merge(executedById, deniedById, t.calls);
  }

  // ---------------------------------------------------------------- every call is answered once

  /** `i` is the place of the last message with the id. */
  ghost predicate LastOf(messages: seq<Message>, id: Id, k: nat) {
    k < |messages| && messages[k].callId == id && forall j :: k < j < |messages| ==> messages[j].callId != id
  }

  ghost predicate HasId(messages: seq<Message>, id: Id) {
    exists k :: 0 <= k < |messages| && messages[k].callId == id
  }

  lemma {:induction false} ByIdHas(messages: seq<Message>, id: Id)
    ensures id in ById(messages) <==> HasId(messages, id)
  {
    if messages != [] {
      var n := |messages| - 1;
      ByIdHas(messages[..n], id);
      if HasId(messages, id) && messages[n].callId != id {
        var k :| 0 <= k < |messages| && messages[k].callId == id;
        assert messages[..n][k].callId == id;
      }
    }
  }

  lemma {:induction false} ByIdLast(messages: seq<Message>, id: Id) returns (k: nat)
    requires id in ById(messages)
    ensures LastOf(messages, id, k) && ById(messages)[id] == messages[k]
  {
    var n := |messages| - 1;
    if messages[n].callId == id {
      k := n;
    } else {
      k := ByIdLast(messages[..n], id);
    }
  }

  /** A call that runs leaves a message under its id. */
  lemma ExecutedHas(t: Turn, i: nat)
    requires Valid(t) && Runs(t, i)
    ensures t.calls[i].id in ById(ToolNode(t, Exec(t)))
  {
    var exec := Exec(t);
    WhereExact(RunFlags(t));
    assert i in exec;
    var k :| 0 <= k < |exec| && exec[k] == i;
    assert ToolNode(t, exec)[k].callId == t.calls[i].id;
    ByIdHas(ToolNode(t, exec), t.calls[i].id);
  }

  ghost predicate LastRunning(t: Turn, id: Id, i: nat)
    requires Valid(t)
  {
    Runs(t, i) && t.calls[i].id == id && forall j: nat :: j > i && Runs(t, j) ==> t.calls[j].id != id
  }

  /** What the node left under an id is the message of the last running call with that id. */
  lemma ExecutedLast(t: Turn, id: Id) returns (i: nat)
    requires Valid(t) && id in ById(ToolNode(t, Exec(t)))
    ensures LastRunning(t, id, i) && ById(ToolNode(t, Exec(t)))[id] == Own(t, i)
  {
    var exec := Exec(t);
    var ms := ToolNode(t, exec);
    WhereExact(RunFlags(t));
    var k := ByIdLast(ms, id);
    i := exec[k];
    assert i in exec;
    forall j: nat | j > i && Runs(t, j) ensures t.calls[j].id != id {
      assert j in exec;
      var m :| 0 <= m < |exec| && exec[m] == j;
      assert ms[m].callId == t.calls[j].id;
    }
  }

  ghost predicate DeniedCall(t: Turn, id: Id, i: nat)
    requires Valid(t)
  {
    i < |t.calls| && !Runs(t, i) && t.calls[i].id == id
  }

  lemma DeniedMessages(t: Turn, k: nat)
    requires Valid(t) && k < |Denied(t)|
    ensures exists i: nat :: i < |t.calls| && !Runs(t, i) && Denied(t)[k] == Denial(t, i)
  {
    var f, r := Where(ForbidFlags(t)), Where(RefuseFlags(t));
    WhereExact(ForbidFlags(t));
    WhereExact(RefuseFlags(t));
    if k < |f| {
      assert f[k] in f;
      assert Denied(t)[k] == Denial(t, f[k]);
    } else {
      assert r[k - |f|] in r;
      assert Denied(t)[k] == Denial(t, r[k - |f|]);
    }
  }

  lemma DenialAt(t: Turn, at: seq<nat>, i: nat)
    requires Valid(t) && i in at && forall k :: 0 <= k < |at| ==> at[k] < |t.calls|
    ensures Denial(t, i) in Denials(t, at)
  {
    var k :| 0 <= k < |at| && at[k] == i;
    assert Denials(t, at)[k] == Denial(t, i);
  }

  lemma DenialIsMade(t: Turn, i: nat)
    requires Valid(t) && i < |t.calls| && !Runs(t, i)
    ensures Denial(t, i) in Denied(t)
  {
    if Forbidden(t, i) {
      WhereExact(ForbidFlags(t));
      DenialAt(t, Where(ForbidFlags(t)), i);
    } else {
      WhereExact(RefuseFlags(t));
      DenialAt(t, Where(RefuseFlags(t)), i);
    }
  }

  lemma DeniedHas(t: Turn, i: nat)
    requires Valid(t) && i < |t.calls| && !Runs(t, i)
    ensures t.calls[i].id in ById(Denied(t))
  {
    DenialIsMade(t, i);
    var k :| 0 <= k < |Denied(t)| && Denied(t)[k] == Denial(t, i);
    ByIdHas(Denied(t), t.calls[i].id);
  }

  lemma DeniedLast(t: Turn, id: Id) returns (i: nat)
    requires Valid(t) && id in ById(Denied(t))
    ensures DeniedCall(t, id, i) && ById(Denied(t))[id] == Own(t, i)
  {
    var k := ByIdLast(Denied(t), id);
    DeniedMessages(t, k);
    i :| i < |t.calls| && !Runs(t, i) && Denied(t)[k] == Denial(t, i);
  }

  ghost predicate NoneRuns(t: Turn, id: Id)
    requires Valid(t)
  {
    forall j: nat :: Runs(t, j) ==> t.calls[j].id != id
  }

  /** Whose message call `i` is answered with: the last running call of its id, or if none runs a denied one. */
  ghost predicate AnsweredBy(t: Turn, i: nat, w: nat)
    requires Valid(t) && i < |t.calls|
  {
    var id := t.calls[i].id;
    w < |t.calls| && (LastRunning(t, id, w) || (DeniedCall(t, id, w) && NoneRuns(t, id)))
  }

  lemma PickExact(t: Turn, i: nat) returns (w: nat)
    requires Valid(t) && i < |t.calls|
    ensures AnsweredBy(t, i, w)
    ensures Pick(ById(ToolNode(t, Exec(t))), ById(Denied(t)), t.calls[i]) == [Own(t, w)]
  {
    var id := t.calls[i].id;
    if id in ById(ToolNode(t, Exec(t))) {
      w := ExecutedLast(t, id);
    } else {
      forall j: nat | Runs(t, j) ensures t.calls[j].id != id {
        ExecutedHas(t, j);
      }
      DeniedHas(t, i);
      w := DeniedLast(t, id);
    }
  }

  lemma {:induction false} FlatSingles<T, U>(f: T -> seq<U>, xs: seq<T>)
    requires forall k :: 0 <= k < |xs| ==> |f(xs[k])| == 1
    ensures |Flat(f, xs)| == |xs| && forall k :: 0 <= k < |xs| ==> Flat(f, xs)[k] == f(xs[k])[0]
  {
    if xs != [] {
      FlatSingles(f, xs[1..]);
      forall k | 0 <= k < |xs| ensures Flat(f, xs)[k] == f(xs[k])[0] {
        if k > 0 {
          assert xs[k] == xs[1..][k - 1] && Flat(f, xs)[k] == Flat(f, xs[1..])[k - 1];
        }
      }
    }
  }

  /** A message that answers call `i`: its id, and the text of the call that answers for it. */
  ghost predicate Answering(t: Turn, i: nat, m: Message)
    requires Valid(t) && i < |t.calls|
  {
    m.callId == t.calls[i].id && exists w: nat :: AnsweredBy(t, i, w) && m == Own(t, w)
  }

  /** Whatever is allowed, refused, unknown, failing or timing out, and even if ids repeat, there is exactly one
      message per call, in call order and with the call's id; it is the own message of the last running call of that
      id, or of a denied call of that id when none runs. */
  lemma OneMessagePerCall(t: Turn)
    requires Valid(t)
    ensures |Answers(t)| == |t.calls|
    ensures forall i {:trigger Answers(t)[i]} :: 0 <= i < |t.calls| ==> Answering(t, i, Answers(t)[i])
  {
    var e, d := ById(ToolNode(t, Exec(t))), ById(Denied(t));
    var f := (c: Call) => Pick(e, d, c);
    forall i | 0 <= i < |t.calls| ensures |f(t.calls[i])| == 1 && Answering(t, i, f(t.calls[i])[0]) {
      var w := PickExact(t, i);
    }
    FlatSingles(f, t.calls);
    assert Answers(t) == Flat(f, t.calls);
  }

  ghost predicate DistinctIds(calls: seq<Call>) {
    forall i, j :: 0 <= i < j < |calls| ==> calls[i].id != calls[j].id
  }

  /** Every call is answered with its own message. */
  ghost predicate AllOwn(t: Turn)
    requires Valid(t)
  {
    |Answers(t)| == |t.calls| && forall i :: 0 <= i < |t.calls| ==> Answers(t)[i] == Own(t, i)
  }

  lemma DistinctOwn(t: Turn)
    requires Valid(t) && DistinctIds(t.calls)
    ensures AllOwn(t)
  {
    OneMessagePerCall(t);
    forall i | 0 <= i < |t.calls| ensures Answers(t)[i] == Own(t, i) {
      assert Answering(t, i, Answers(t)[i]);
    }
  }

  /** All calls allowed, of one known tool each, each giving its text. */
  ghost function AllRun(calls: seq<Call>, texts: seq<string>): (t: Turn)
    requires |texts| == |calls|
    ensures Valid(t) && t.calls == calls
  {
    Turn(calls, seq(|calls|, i => Decision(Allow, [], false)), false, [],
         set k | 0 <= k < |calls| :: calls[k].name, seq(|calls|, i requires 0 <= i < |calls| => Value(texts[i])), [])
  }

  lemma AllRunOwn(calls: seq<Call>, texts: seq<string>, k: nat)
    requires |texts| == |calls| && k < |calls|
    ensures Runs(AllRun(calls, texts), k) && Own(AllRun(calls, texts), k) == Message(texts[k], calls[k].id)
  {
    assert calls[k].name in AllRun(calls, texts).tools;
  }

  lemma LaterWins(t: Turn, i: nat, j: nat, w: nat)
    requires Valid(t) && i < j < |t.calls| && t.calls[i].id == t.calls[j].id && Runs(t, j) && AnsweredBy(t, i, w)
    ensures w >= j
  {
  }

  /** Two calls with one id: run both with different results, and the first gets the other's message. */
  lemma RepeatedNotOwn(calls: seq<Call>, i: nat, j: nat)
    requires i < j < |calls| && calls[i].id == calls[j].id
    ensures exists t :: Valid(t) && t.calls == calls && !AllOwn(t)
  {
    var texts := seq(|calls|, k => if k == i then ['a'] else ['b']);
    var t := AllRun(calls, texts);
    OneMessagePerCall(t);
    assert Answering(t, i, Answers(t)[i]);
    var w: nat :| AnsweredBy(t, i, w) && Answers(t)[i] == Own(t, w);
    AllRunOwn(calls, texts, i);
    AllRunOwn(calls, texts, w);
    assert w != i by {
      AllRunOwn(calls, texts, j);
      LaterWins(t, i, j, w);
    }
    assert texts[i][0] != texts[w][0];
  }

  /** Every call is answered with its own message, whatever the decisions and outcomes, exactly when the calls have
      distinct ids. */
  lemma OwnMessagesExact(calls: seq<Call>)
    ensures DistinctIds(calls) <==> forall t :: Valid(t) && t.calls == calls ==> AllOwn(t)
  {
    if DistinctIds(calls) {
      forall t | Valid(t) && t.calls == calls ensures AllOwn(t) {
        DistinctOwn(t);
      }
    } else {
      var i, j :| 0 <= i < j < |calls| && calls[i].id == calls[j].id;
      RepeatedNotOwn(calls, i, j);
    }
  }

  /** The calls that are executed are exactly those allowed, or confirmed by an approver, in call order. */
  lemma ExecExact(t: Turn)
    requires Valid(t)
    ensures Rising(Exec(t))
    ensures forall i: nat :: i in Exec(t) <==>
      i < |t.calls| && (t.decisions[i].ruling.Allow?
        || (t.decisions[i].ruling.Confirm? && t.hasApprover && Approved(t.calls[i].id, t.answers)))
  {
    WhereExact(RunFlags(t));
  }

  // ---------------------------------------------------------------- the verdicts tell what happened

  /** Some call at one of the positions has the id. */
  ghost predicate Holds(calls: seq<Call>, at: seq<nat>, id: Id) {
    exists k :: 0 <= k < |at| && at[k] < |calls| && calls[at[k]].id == id
  }

  lemma {:induction false} RecordHas(calls: seq<Call>, values: seq<Verdict>, verdicts: map<Id, Verdict>, at: seq<nat>,
                                     id: Id)
    requires |values| == |calls| && forall k :: 0 <= k < |at| ==> at[k] < |calls|
    ensures id in Record(calls, values, verdicts, at) <==> id in verdicts || Holds(calls, at, id)
  {
    if at != [] {
      var n := |at| - 1;
      RecordHas(calls, values, verdicts, at[..n], id);
      if Holds(calls, at[..n], id) {
        var k :| 0 <= k < |at[..n]| && at[..n][k] < |calls| && calls[at[..n][k]].id == id;
        assert at[k] == at[..n][k];
      }
      if Holds(calls, at, id) && calls[at[n]].id != id {
        var k :| 0 <= k < |at| && at[k] < |calls| && calls[at[k]].id == id;
        assert at[..n][k] == at[k];
      }
    }
  }

  /** With distinct ids a position's own value is what is recorded, and other positions do not disturb it. */
  lemma {:induction false} RecordOwn(calls: seq<Call>, values: seq<Verdict>, verdicts: map<Id, Verdict>, at: seq<nat>,
                                     i: nat)
    requires |values| == |calls| && forall k :: 0 <= k < |at| ==> at[k] < |calls|
    requires DistinctIds(calls) && i < |calls|
    ensures var id, after := calls[i].id, Record(calls, values, verdicts, at);
      && (i in at ==> id in after && after[id] == values[i])
      && (i !in at ==> (id in after <==> id in verdicts))
      && (i !in at && id in verdicts ==> after[id] == verdicts[id])
  {
    if at != [] {
      var n := |at| - 1;
      RecordOwn(calls, values, verdicts, at[..n], i);
      assert at == at[..n] + [at[n]];
    }
  }

  /** Every call's own verdict is recorded under its id. */
  ghost predicate AllJudgedOwn(t: Turn)
    requires Valid(t)
  {
    forall i :: 0 <= i < |t.calls| ==> t.calls[i].id in Verdicts(t) && Verdicts(t)[t.calls[i].id] == OwnVerdict(t, i)
  }

  lemma OneRuling(t: Turn, i: nat)
    requires Valid(t) && i < |t.calls|
    ensures i in Where(AllowFlags(t)) <==> t.decisions[i].ruling.Allow?
    ensures i in Where(ForbidFlags(t)) <==> t.decisions[i].ruling.Deny?
    ensures i in Where(PendingFlags(t)) <==> t.decisions[i].ruling.Confirm?
    ensures i in Where(AutoFlags(t)) <==> t.decisions[i].autoAllowed
  {
    WhereExact(AllowFlags(t));
    WhereExact(ForbidFlags(t));
    WhereExact(PendingFlags(t));
    WhereExact(AutoFlags(t));
  }

  lemma DistinctJudged(t: Turn)
    requires Valid(t) && DistinctIds(t.calls)
    ensures AllJudgedOwn(t)
  {
    forall i | 0 <= i < |t.calls|
      ensures t.calls[i].id in Verdicts(t) && Verdicts(t)[t.calls[i].id] == OwnVerdict(t, i)
    {
      OneRuling(t, i);
      var b, pending := BranchVerdicts(t), Where(PendingFlags(t));
      RecordOwn(t.calls, b, map[], Where(AllowFlags(t)), i);
      RecordOwn(t.calls, b, AllowedVerdicts(t), Where(ForbidFlags(t)), i);
      RecordOwn(t.calls, b, OutrightVerdicts(t), pending, i);
      RecordOwn(t.calls, ModeVerdicts(t), Judged(t, OutrightVerdicts(t), pending), Where(AutoFlags(t)), i);
    }
  }

  /** Everything is forbidden, each call for its own reason. */
  ghost function NoneAllowed(calls: seq<Call>, reasons: seq<string>): (t: Turn)
    requires |reasons| == |calls|
    ensures Valid(t) && t.calls == calls
  {
    Turn(calls, seq(|calls|, i requires 0 <= i < |calls| => Decision(Deny, reasons[i], false)), false, [], {},
         seq(|calls|, i => TimedOut), [])
  }

  /** Two calls with one id that are forbidden for different reasons have one verdict between them. */
  lemma RepeatedNotJudged(calls: seq<Call>, i: nat, j: nat)
    requires i < j < |calls| && calls[i].id == calls[j].id
    ensures exists t :: Valid(t) && t.calls == calls && !AllJudgedOwn(t)
  {
    var t := NoneAllowed(calls, seq(|calls|, k => if k == i then ['a'] else []));
    assert OwnVerdict(t, i) == Blocked(['a']) && OwnVerdict(t, j) == Blocked([]);
    assert !AllJudgedOwn(t);
  }

  /** Every call's own verdict is recorded, whatever decisions and answers, exactly when the calls have distinct
      ids. */
  lemma OwnVerdictsExact(calls: seq<Call>)
    ensures DistinctIds(calls) <==> forall t :: Valid(t) && t.calls == calls ==> AllJudgedOwn(t)
  {
    if DistinctIds(calls) {
      forall t | Valid(t) && t.calls == calls ensures AllJudgedOwn(t) {
        DistinctJudged(t);
      }
    } else {
      var i, j :| 0 <= i < j < |calls| && calls[i].id == calls[j].id;
      RepeatedNotJudged(calls, i, j);
    }
  }

  /** The verdict of each call is a denial just when the call does not run. */
  ghost predicate TellsTruth(t: Turn)
    requires Valid(t)
  {
    forall i :: 0 <= i < |t.calls| ==>
      t.calls[i].id in Verdicts(t) && (Verdicts(t)[t.calls[i].id].Blocked? <==> !Runs(t, i))
  }

  /** The gate alone, whatever the policy says: with distinct ids the verdicts tell what runs exactly when nothing that
      is marked as passed by the mode is kept from running. */
  lemma TruthExact(t: Turn)
    requires Valid(t) && DistinctIds(t.calls)
    ensures TellsTruth(t) <==> forall i :: 0 <= i < |t.calls| && t.decisions[i].autoAllowed ==> Runs(t, i)
  {
    DistinctJudged(t);
  }

  /** What the policy keeps to: only a call that it allows is marked as passed by the mode. */
  ghost predicate PolicyOk(t: Turn)
    requires Valid(t)
  {
    forall i :: 0 <= i < |t.calls| && t.decisions[i].autoAllowed ==> t.decisions[i].ruling.Allow?
  }

  /** `v` is the verdict of call `w`, by its branch or by the mode. */
  predicate VerdictOf(t: Turn, w: nat, v: Verdict)
    requires Valid(t)
  {
    w < |t.calls| && (v == BranchVerdict(t, w) || (t.decisions[w].autoAllowed && v == ModeVerdict(t, w)))
  }

  /** Every verdict recorded is that of a call with its id. */
  ghost predicate AllFromCalls(t: Turn, verdicts: map<Id, Verdict>)
    requires Valid(t)
  {
    forall id :: id in verdicts ==> exists w: nat :: VerdictOf(t, w, verdicts[id]) && t.calls[w].id == id
  }

  lemma RecordedFromCall(t: Turn, verdicts: map<Id, Verdict>, w: nat, v: Verdict)
    requires Valid(t) && AllFromCalls(t, verdicts) && VerdictOf(t, w, v)
    ensures AllFromCalls(t, verdicts[t.calls[w].id := v])
  {
  }

  lemma {:induction false} RecordFromCalls(t: Turn, values: seq<Verdict>, verdicts: map<Id, Verdict>, at: seq<nat>)
    requires Valid(t) && AllFromCalls(t, verdicts) && |values| == |t.calls|
    requires forall k :: 0 <= k < |at| ==> at[k] < |t.calls| && VerdictOf(t, at[k], values[at[k]])
    ensures AllFromCalls(t, Record(t.calls, values, verdicts, at))
  {
    if at != [] {
      var n := |at| - 1;
      RecordFromCalls(t, values, verdicts, at[..n]);
      RecordedFromCall(t, Record(t.calls, values, verdicts, at[..n]), at[n], values[at[n]]);
    }
  }

  lemma VerdictsFromCalls(t: Turn)
    requires Valid(t)
    ensures AllFromCalls(t, Verdicts(t))
  {
    var b, pending, auto := BranchVerdicts(t), Where(PendingFlags(t)), Where(AutoFlags(t));
    RecordFromCalls(t, b, map[], Where(AllowFlags(t)));
    RecordFromCalls(t, b, AllowedVerdicts(t), Where(ForbidFlags(t)));
    RecordFromCalls(t, b, OutrightVerdicts(t), pending);
    WhereExact(AutoFlags(t));
    forall k | 0 <= k < |auto| ensures VerdictOf(t, auto[k], ModeVerdicts(t)[auto[k]]) {
      assert auto[k] in auto;
    }
    RecordFromCalls(t, ModeVerdicts(t), Judged(t, OutrightVerdicts(t), pending), auto);
  }

  /** Every call has a verdict under its id, repeated or not. */
  lemma VerdictRecorded(t: Turn, i: nat)
    requires Valid(t) && i < |t.calls|
    ensures t.calls[i].id in Verdicts(t)
  {
    var b, pending, id := BranchVerdicts(t), Where(PendingFlags(t)), t.calls[i].id;
    OneRuling(t, i);
    assert forall at: seq<nat> :: i in at ==> Holds(t.calls, at, id);
    RecordHas(t.calls, b, map[], Where(AllowFlags(t)), id);
    RecordHas(t.calls, b, AllowedVerdicts(t), Where(ForbidFlags(t)), id);
    RecordHas(t.calls, b, OutrightVerdicts(t), pending, id);
    RecordHas(t.calls, ModeVerdicts(t), Judged(t, OutrightVerdicts(t), pending), Where(AutoFlags(t)), id);
  }

  /** Calls with one id run together or not at all. */
  ghost predicate SameIdSameFate(t: Turn)
    requires Valid(t)
  {
    forall i, j :: 0 <= i < |t.calls| && 0 <= j < |t.calls| && t.calls[i].id == t.calls[j].id ==>
      (Runs(t, i) <==> Runs(t, j))
  }

  /** Under the policy the verdicts tell what runs exactly when calls with one id share their fate. */
  lemma TruthUnderPolicy(t: Turn)
    requires Valid(t) && PolicyOk(t)
    ensures TellsTruth(t) <==> SameIdSameFate(t)
  {
    VerdictsFromCalls(t);
    if SameIdSameFate(t) {
      forall i | 0 <= i < |t.calls|
        ensures t.calls[i].id in Verdicts(t) && (Verdicts(t)[t.calls[i].id].Blocked? <==> !Runs(t, i))
      {
        VerdictRecorded(t, i);
        var w: nat :| VerdictOf(t, w, Verdicts(t)[t.calls[i].id]) && t.calls[w].id == t.calls[i].id;
        assert Runs(t, w) <==> Runs(t, i);
      }
    }
  }

  /** One call is passed by the mode and all others are denied. */
  ghost function OnePassed(calls: seq<Call>, i: nat): (t: Turn)
    requires i < |calls|
    ensures Valid(t) && t.calls == calls && PolicyOk(t)
    ensures forall j: nat :: j < |calls| ==> (Runs(t, j) <==> j == i)
  {
    Turn(calls, seq(|calls|, k => if k == i then Decision(Allow, [], true) else Decision(Deny, [], false)), false, [],
         {}, seq(|calls|, k => TimedOut), [])
  }

  /** Whatever else the calls with an id come to, a pass by the mode is what their id shows. */
  lemma {:induction false} MarkStays(t: Turn, verdicts: map<Id, Verdict>, at: seq<nat>, i: nat)
    requires Valid(t) && i in at && forall k :: 0 <= k < |at| ==> at[k] < |t.calls|
    ensures t.calls[i].id in Marked(t, verdicts, at) && Marked(t, verdicts, at)[t.calls[i].id].PassedByMode?
  {
    var n := |at| - 1;
    assert at == at[..n] + [at[n]];
    if t.calls[at[n]].id != t.calls[i].id {
      MarkStays(t, verdicts, at[..n], i);
    }
  }

  /** Two calls with one id, the one passed by the mode and the other denied: the pass overwrites the denial, so the id
      of a call that does not run shows a pass. */
  lemma PassOverwritesDenial(calls: seq<Call>, i: nat, j: nat)
    requires i < |calls| && j < |calls| && i != j && calls[i].id == calls[j].id
    ensures var t := OnePassed(calls, i);
      && !Runs(t, j) && t.calls[j].id in Verdicts(t) && Verdicts(t)[t.calls[j].id].PassedByMode? && !TellsTruth(t)
  {
    var t := OnePassed(calls, i);
    OneRuling(t, i);
    MarkStays(t, Judged(t, OutrightVerdicts(t), Where(PendingFlags(t))), Where(AutoFlags(t)), i);
  }

  /** Under the policy the verdicts tell what runs, whatever the decisions and answers, exactly when the calls have
      distinct ids. */
  lemma TruthByIds(calls: seq<Call>)
    ensures DistinctIds(calls) <==> forall t :: Valid(t) && t.calls == calls && PolicyOk(t) ==> TellsTruth(t)
  {
    if DistinctIds(calls) {
      forall t | Valid(t) && t.calls == calls && PolicyOk(t) ensures TellsTruth(t) {
        TruthExact(t);
      }
    } else {
      var i, j :| 0 <= i < j < |calls| && calls[i].id == calls[j].id;
      PassOverwritesDenial(calls, i, j);
    }
  }

  // ---------------------------------------------------------------- the texts and verdicts, case by case

  /** With distinct ids each call is answered under its id with the text of its case. */
  lemma AnswerTexts(t: Turn, i: nat)
    requires Valid(t) && DistinctIds(t.calls) && i < |t.calls|
    ensures |Answers(t)| == |t.calls| && Answers(t)[i].callId == t.calls[i].id
    ensures var d, c, o, text := t.decisions[i], t.calls[i], t.outcomes[i], Answers(t)[i].content;
      var approved := t.hasApprover && exists k :: 0 <= k < |t.answers| && t.answers[k] == Answer(c.id, true);
      && (d.ruling.Deny? ==> text == "Error: 权限拒绝: " + d.reason)
      && (d.ruling.Confirm? && !t.hasApprover ==> text == "Error: 权限拒绝（无人值守）: " + d.reason)
      && (d.ruling.Confirm? && t.hasApprover && !approved ==> text == "Error: 用户拒绝了该操作: " + c.name)
      && (d.ruling.Allow? || (d.ruling.Confirm? && approved) ==>
            text ==
              if c.name !in t.tools then "Error: Unknown tool '" + c.name + "'"
              else if o.TimedOut? then "Error: tool '" + c.name + "' timed out after " + t.timeout + "s"
              else if o.Raised? then "Error executing tool '" + c.name + "': " + o.error
              else o.text)
  {
    DistinctOwn(t);
    assert Approved(t.calls[i].id, t.answers) <==>
      exists k :: 0 <= k < |t.answers| && t.answers[k] == Answer(t.calls[i].id, true);
  }

  /** With distinct ids each call's verdict is that of its case. */
  lemma VerdictCases(t: Turn, i: nat)
    requires Valid(t) && DistinctIds(t.calls) && i < |t.calls| && t.calls[i].id in Verdicts(t)
    ensures var d, v := t.decisions[i], Verdicts(t)[t.calls[i].id];
      var approved := exists k :: 0 <= k < |t.answers| && t.answers[k] == Answer(t.calls[i].id, true);
      v == if d.autoAllowed then PassedByMode(d.reason)
           else if d.ruling.Allow? then Passed
           else if d.ruling.Deny? || !t.hasApprover then Blocked(d.reason)
           else if approved then PassedByHand
           else Blocked("user_denied")
  {
    DistinctJudged(t);
    assert Approved(t.calls[i].id, t.answers) <==>
      exists k :: 0 <= k < |t.answers| && t.answers[k] == Answer(t.calls[i].id, true);
  }
}
