/** The prompt within a token budget. */
module ExtractorPrompt {
  import opened Text

  // ---------------------------------------------------------------- recent turns

  datatype Message = Message(role: string, content: string)

  predicate Usable(m: Message) {
    (m.role == "user" || m.role == "assistant") && Strip(m.content) != []
  }

  function UsableOnes(messages: seq<Message>): seq<Message> {
    if messages == [] then []
    else
      var n := |messages| - 1;
      if Usable(messages[n]) then UsableOnes(messages[..n]) + [messages[n]] else UsableOnes(messages[..n])
  }

  /** Python's `xs[-n:]`: the last `n`, but everything for `n == 0`, and what stands from `-n` on for less. */
  function SliceFromEnd<T>(xs: seq<T>, n: int): seq<T> {
    if n > 0 then (if n <= |xs| then xs[|xs| - n..] else xs)
    else if -n <= |xs| then xs[-n..] else []
  }

  /** What the constructor makes of its argument: `max(8, min(12, recent_turns))`. */
  function Clamped(recentTurns: int): (n: int)
    ensures 8 <= n <= 12 && (8 <= recentTurns <= 12 ==> n == recentTurns)
  {
    var capped := if recentTurns < 12 then recentTurns else 12;
    if capped > 8 then capped else 8
  }

  /** `_select_recent_turns` of an extractor made with `recentTurns`. */
  function RecentTurns(messages: seq<Message>, recentTurns: int): seq<Message> {
    var kept, n := UsableOnes(messages), Clamped(recentTurns);
    if |kept| > n then SliceFromEnd(kept, n) else kept
  }

  method SelectRecentTurns(messages: seq<Message>, recentTurns: int) returns (kept: seq<Message>)
    ensures kept == RecentTurns(messages, recentTurns)
  {
    var n := Clamped(recentTurns);
    kept := [];
    for i := 0 to |messages|
      invariant kept == UsableOnes(messages[..i])
    {
      assert messages[..i + 1][..i] == messages[..i];
      if Usable(messages[i]) {
        kept := kept + [messages[i]];
      }
    }
    assert messages[..|messages|] == messages;
    if |kept| > n {
      kept := SliceFromEnd(kept, n);
    }
  }

  lemma {:induction false} UsableExact(messages: seq<Message>, m: Message)
    ensures m in UsableOnes(messages) <==> m in messages && Usable(m)
  {
    if messages != [] {
      var n := |messages| - 1;
      UsableExact(messages[..n], m);
      assert messages == messages[..n] + [messages[n]];
    }
  }

  /** Usable turns are selected independently before and after any point. */
  lemma {:induction false} UsableConcat(a: seq<Message>, b: seq<Message>)
    ensures UsableOnes(a + b) == UsableOnes(a) + UsableOnes(b)
    decreases |b|
  {
    if b == [] {
      assert a + b == a;
    } else {
      var n := |b| - 1;
      UsableConcat(a, b[..n]);
      assert (a + b)[..|a + b| - 1] == a + b[..n] && (a + b)[|a + b| - 1] == b[n];
    }
  }

  /** For every constructor argument the turns selected are the last of the user's and the assistant's turns with
      text, in order: all of them, or as many as the clamped argument says, which is between 8 and 12. They depend
      on an end of the conversation alone: nothing before it changes them once it has enough usable turns. */
  lemma RecentTurnsExact(before: seq<Message>, messages: seq<Message>, recentTurns: int)
    ensures var kept, usable := RecentTurns(messages, recentTurns), UsableOnes(messages);
      && |kept| == (if |usable| < Clamped(recentTurns) then |usable| else Clamped(recentTurns))
      && kept == usable[|usable| - |kept|..]
    ensures RecentTurns(before + messages, recentTurns) == RecentTurns(messages, recentTurns)
       <==> UsableOnes(before) == [] || |UsableOnes(messages)| >= Clamped(recentTurns)
  {
    UsableConcat(before, messages);
    var a, b, n := UsableOnes(before), UsableOnes(messages), Clamped(recentTurns);
    if |b| >= n {
      assert (a + b)[|a + b| - n..] == b[|b| - n..];
      assert |b| == n ==> b[|b| - n..] == b && (|a + b| == n ==> a + b == b);
    } else if a == [] {
      assert a + b == b;
    }
  }

  // ---------------------------------------------------------------- the budget

  /** `text.split("\n")`. */
  function SplitNewlines(text: string): (lines: seq<string>)
    ensures lines != []
  {
    if text == [] then [[]]
    else
      var rest := SplitNewlines(text[1..]);
      if text[0] == '\n' then [[]] + rest else [[text[0]] + rest[0]] + rest[1..]
  }

  lemma JoinPrepend(c: char, lines: seq<string>)
    requires lines != []
    ensures Join([[c] + lines[0]] + lines[1..]) == [c] + Join(lines)
  {
    var longer := [[c] + lines[0]] + lines[1..];
    assert longer[1..] == lines[1..] && longer[0] == [c] + lines[0];
    if |lines| > 1 {
      assert [c] + lines[0] + ['\n'] + Join(lines[1..]) == [c] + (lines[0] + ['\n'] + Join(lines[1..]));
    }
  }

  lemma {:induction false} JoinSplit(text: string)
    ensures Join(SplitNewlines(text)) == text
  {
    if text != [] {
      var rest := SplitNewlines(text[1..]);
      JoinSplit(text[1..]);
      if text[0] == '\n' {
        assert ([[]] + rest)[1..] == rest;
        assert Join([[]] + rest) == [] + ['\n'] + Join(rest);
      } else {
        JoinPrepend(text[0], rest);
      }
    }
  }

  /** The lines left when lines are taken from the front until the rest fits. */
  function Fitting(est: string -> int, lines: seq<string>, budget: int): seq<string> {
    if lines != [] && est(Join(lines)) > budget then Fitting(est, lines[1..], budget) else lines
  }

  lemma {:induction false} LinesWhole(text: string)
    ensures forall i :: 0 <= i < |SplitNewlines(text)| ==> '\n' !in SplitNewlines(text)[i]
  {
    if text != [] {
      LinesWhole(text[1..]);
    }
  }

  /** A history is divided at each of its line feeds and nowhere else. */
  lemma LinesExact(text: string)
    ensures Join(SplitNewlines(text)) == text
    ensures forall i :: 0 <= i < |SplitNewlines(text)| ==> '\n' !in SplitNewlines(text)[i]
  {
    JoinSplit(text);
    LinesWhole(text);
  }

  /** `_truncate_history`. */
  method TruncateHistory(est: string -> int, history: string, budget: int) returns (text: string)
    ensures text == Join(Fitting(est, SplitNewlines(history), budget))
  {
    var lines := SplitNewlines(history);
    while lines != [] && est(Join(lines)) > budget
      invariant Fitting(est, lines, budget) == Fitting(est, SplitNewlines(history), budget)
      decreases |lines|
    {
      lines := lines[1..];
    }
    text := Join(lines);
  }

  /** The last `n` lines as text. */
  function LastLines(lines: seq<string>, n: nat): string
    requires n <= |lines|
  {
    Join(lines[|lines| - n..])
  }

  /** `n` is the number of last lines that fit, and no larger number fits. */
  ghost predicate LongestFitting(est: string -> int, lines: seq<string>, budget: int, n: nat) {
    && n <= |lines| && est(LastLines(lines, n)) <= budget
    && forall m {:trigger LastLines(lines, m)} :: n < m <= |lines| ==> est(LastLines(lines, m)) > budget
  }

  lemma LastOfTail(lines: seq<string>, n: nat)
    requires n < |lines|
    ensures LastLines(lines[1..], n) == LastLines(lines, n)
  {
    assert lines[1..][|lines| - 1 - n..] == lines[|lines| - n..];
  }

  /** What is kept is the longest run of last lines that fits. */
  lemma {:induction false} FittingExact(est: string -> int, lines: seq<string>, budget: int) returns (n: nat)
    requires est([]) <= budget
    ensures LongestFitting(est, lines, budget, n) && Join(Fitting(est, lines, budget)) == LastLines(lines, n)
  {
    assert lines[0..] == lines;
    if lines != [] && est(Join(lines)) > budget {
      n := FittingExact(est, lines[1..], budget);
      LastOfTail(lines, n);
      forall m | n < m <= |lines| ensures est(LastLines(lines, m)) > budget {
        if m < |lines| {
          LastOfTail(lines, m);
        }
      }
    } else {
      n := |lines|;
    }
  }

  /** What building a prompt works on: the token estimator, the system prompt and the block of memories made from a
      list of entries, and the limit. `role` is the text whose tokens are set aside for the role. */
  datatype Budgeting<!E> = Budgeting(
    est: string -> int, system: seq<E> -> string, block: seq<E> -> string, role: string, maxInput: int)

  ghost predicate Estimates<E>(b: Budgeting<E>) {
    b.est([]) == 0 && forall t :: b.est(t) >= 0
  }

  function AtLeast256(n: int): int {
    if n < 256 then 256 else n
  }

  /** The budget for the history at first, with the role set aside, and while entries are dropped, without it. */
  function FirstBudget<E>(b: Budgeting<E>, entries: seq<E>): int {
    AtLeast256(b.maxInput - (b.est(b.system(entries)) + b.est(b.role)))
  }

  function BudgetWith<E>(b: Budgeting<E>, entries: seq<E>): int {
    AtLeast256(b.maxInput - b.est(b.system(entries)))
  }

  /** Whether entries are dropped; the block counts here although the system prompt holds it already. */
  predicate Overflows<E>(b: Budgeting<E>, entries: seq<E>, history: string) {
    b.est(history) + b.est(b.block(entries)) > FirstBudget(b, entries) && entries != []
  }

  /** How many entries are kept when the last of `n` is dropped, and more until the history fits. */
  function Keeping<E>(b: Budgeting<E>, entries: seq<E>, history: string, n: nat): (k: nat)
    requires 0 < n <= |entries|
    ensures k < n
    decreases n
  {
    if n == 1 || b.est(history) <= BudgetWith(b, entries[..n - 1]) then n - 1
    else Keeping(b, entries, history, n - 1)
  }

  function KeptCount<E>(b: Budgeting<E>, entries: seq<E>, history: string): (k: nat)
    ensures k <= |entries|
  {
    if Overflows(b, entries, history) then Keeping(b, entries, history, |entries|) else |entries|
  }

  function FinalBudget<E>(b: Budgeting<E>, entries: seq<E>, history: string): int {
    if Overflows(b, entries, history) then BudgetWith(b, entries[..KeptCount(b, entries, history)])
    else FirstBudget(b, entries)
  }

  function HistoryText<E>(b: Budgeting<E>, entries: seq<E>, history: string): string {
    var budget := FinalBudget(b, entries, history);
    if b.est(history) > budget then Join(Fitting(b.est, SplitNewlines(history), budget)) else history
  }

  /** `_build_prompt`, from the related entries, best first, and the history. */
  method BuildPrompt<E>(b: Budgeting<E>, relevant: seq<E>, history: string) returns (system: string, user: string)
    ensures system == b.system(relevant[..KeptCount(b, relevant, history)])
    ensures user == HistoryText(b, relevant, history)
  {
    var entries := relevant;
    assert relevant[..|relevant|] == relevant;
    system := b.system(entries);
    var fixedTokens := b.est(system) + b.est(b.role);
    var budget := b.maxInput - fixedTokens;
    if budget < 256 {
      budget := 256;
    }
    var overflow := b.est(history) + b.est(b.block(entries)) - budget;
    if overflow > 0 && entries != [] {
      var fits := false;
      while entries != [] && !fits
        invariant entries == relevant[..|entries|] && |entries| <= |relevant|
        invariant !fits && entries != [] ==>
                    Keeping(b, relevant, history, |relevant|) == Keeping(b, relevant, history, |entries|)
        invariant !fits && entries == [] ==> Keeping(b, relevant, history, |relevant|) == 0
        invariant fits ==> |entries| == Keeping(b, relevant, history, |relevant|)
        invariant |entries| < |relevant| ==> system == b.system(entries) && budget == BudgetWith(b, entries)
        decreases |entries|, !fits
      {
        entries := entries[..|entries| - 1];
        system := b.system(entries);
        budget := b.maxInput - b.est(system);
        if budget < 256 {
          budget := 256;
        }
        if b.est(history) <= budget {
          fits := true;
        }
      }
    }
    user := history;
    if b.est(history) > budget {
      user := TruncateHistory(b.est, history, budget);
    }
  }

  // ---------------------------------------------------------------- what the prompt keeps to

  /** Once entries are dropped they go from the worst on, one at least, and then no more than it takes for the history
      to fit: with every larger number, short of all of them, it does not fit. */
  lemma {:induction false} KeepingExact<E>(b: Budgeting<E>, entries: seq<E>, history: string, n: nat)
    requires 0 < n <= |entries|
    ensures var k := Keeping(b, entries, history, n);
      && (forall j :: k < j < n ==> b.est(history) > BudgetWith(b, entries[..j]))
      && (k > 0 ==> b.est(history) <= BudgetWith(b, entries[..k]))
    decreases n
  {
    if n > 1 && b.est(history) > BudgetWith(b, entries[..n - 1]) {
      KeepingExact(b, entries, history, n - 1);
    }
  }

  /** The history fits beside the first `j` entries: with all of them by the first budget, with fewer by that of the
      shorter system prompt. */
  predicate FitsBeside<E>(b: Budgeting<E>, entries: seq<E>, history: string, j: nat)
    requires j <= |entries|
  {
    b.est(history) <= if j == |entries| then FirstBudget(b, entries) else BudgetWith(b, entries[..j])
  }

  /** The entries kept are as many as the history fits beside. */
  ghost predicate KeepsMost<E>(b: Budgeting<E>, entries: seq<E>, history: string) {
    forall j :: KeptCount(b, entries, history) < j <= |entries| ==> !FitsBeside(b, entries, history, j)
  }

  /** The history fits beside all entries, but no longer once their block is counted a second time. */
  predicate FitsButForBlock<E>(b: Budgeting<E>, entries: seq<E>, history: string) {
    entries != []
    && b.est(history) <= FirstBudget(b, entries) < b.est(history) + b.est(b.block(entries))
  }

  /** As many entries are kept as the history fits beside exactly when counting the block a second time does not make
      the difference; where it does, an entry is dropped although all of them fit. */
  lemma KeepsMostExact<E>(b: Budgeting<E>, entries: seq<E>, history: string)
    ensures KeepsMost(b, entries, history) <==> !FitsButForBlock(b, entries, history)
    ensures b.est(history) <= FirstBudget(b, entries) ==>
      (KeptCount(b, entries, history) < |entries| <==> FitsButForBlock(b, entries, history))
  {
    var n, k := |entries|, KeptCount(b, entries, history);
    if Overflows(b, entries, history) {
      KeepingExact(b, entries, history, n);
      assert FitsBeside(b, entries, history, n) <==> FitsButForBlock(b, entries, history);
      forall j | k < j < n ensures !FitsBeside(b, entries, history, j) {
      }
    }
  }

  /** Where it does, and a shorter list of entries makes no longer system prompt, just one entry is lost. */
  lemma OneEntryLost<E>(b: Budgeting<E>, entries: seq<E>, history: string)
    requires Estimates(b) && FitsButForBlock(b, entries, history)
    requires b.est(b.system(entries[..|entries| - 1])) <= b.est(b.system(entries))
    ensures KeptCount(b, entries, history) == |entries| - 1
  {
    assert b.est(b.role) >= 0;
  }

  /** Length as estimate, 300 characters for each entry, and a limit of 1000. */
  function Sample(): Budgeting<nat> {
    var text := (entries: seq<nat>) => seq(300 * |entries|, _ => 'x');
    Budgeting((t: string) => |t|, text, text, "user: \n", 1000)
  }

  /** A history of 500 fits beside one entry, which is dropped all the same. */
  lemma DroppedThoughFitting(entry: nat)
    ensures var history := seq(500, _ => 'h');
      && Estimates(Sample()) && FitsBeside(Sample(), [entry], history, 1)
      && KeptCount(Sample(), [entry], history) == 0 && HistoryText(Sample(), [entry], history) == history
  {
    var history: string := seq(500, _ => 'h');
    assert Sample().est("user: \n") == 7;
    assert FirstBudget(Sample(), [entry]) == 693;
    assert Overflows(Sample(), [entry], history);
  }

  function Max(a: int, b: int): int {
    if a < b then b else a
  }

  lemma FinalBudgetBound<E>(b: Budgeting<E>, entries: seq<E>, history: string)
    requires Estimates(b)
    ensures var system := b.system(entries[..KeptCount(b, entries, history)]);
      256 <= FinalBudget(b, entries, history) <= Max(b.maxInput - b.est(system), 256)
  {
    assert entries[..|entries|] == entries;
    assert b.est(b.role) >= 0;
  }

  /** The prompt stays within the limit, or within 256 tokens more than its system part; a history that fits its
      budget is kept whole, and otherwise the longest run of its last lines that fits. */
  lemma PromptFits<E>(b: Budgeting<E>, entries: seq<E>, history: string) returns (n: nat)
    requires Estimates(b)
    ensures var system := b.system(entries[..KeptCount(b, entries, history)]);
      b.est(system) + b.est(HistoryText(b, entries, history)) <= Max(b.maxInput, b.est(system) + 256)
    ensures b.est(history) <= FinalBudget(b, entries, history) ==> HistoryText(b, entries, history) == history
    ensures b.est(history) > FinalBudget(b, entries, history) ==>
      && LongestFitting(b.est, SplitNewlines(history), FinalBudget(b, entries, history), n)
      && HistoryText(b, entries, history) == LastLines(SplitNewlines(history), n)
  {
    FinalBudgetBound(b, entries, history);
    n := FittingExact(b.est, SplitNewlines(history), FinalBudget(b, entries, history));
  }

  /** The numbers in the code: 8 to 12 turns, and a budget of what the limit leaves beside the system prompt, and at
      first the role, or of 256. */
  lemma NumbersExact<E>(recentTurns: int, b: Budgeting<E>, entries: seq<E>)
    ensures Clamped(recentTurns) == if recentTurns <= 8 then 8 else if recentTurns >= 12 then 12 else recentTurns
    ensures var left := b.maxInput - b.est(b.system(entries));
      && BudgetWith(b, entries) == (if left >= 256 then left else 256)
      && FirstBudget(b, entries) == (if left - b.est(b.role) >= 256 then left - b.est(b.role) else 256)
  {
  }

  /** A turn counts if it is the user's or the assistant's and is not blank. */
  lemma UsableCases(m: Message)
    ensures Usable(m) <==> m.role in {"user", "assistant"} && exists i :: 0 <= i < |m.content| && !IsSpace(m.content[i])
  {
    BlankExact(m.content);
  }
}
