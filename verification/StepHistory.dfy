/** The step history: what it keeps, and that capping it does not change how the rest is rendered. */
module StepHistories {
  import opened Text

  datatype StepEntry = StepEntry(index: nat, desc: string, success: bool, output: string)

  const STEP_HISTORY_CAP := 30

  datatype Op = Push(entry: StepEntry) | InjectFacts(facts: string)

  function FactsEntry(facts: string): StepEntry { StepEntry(0, "knowledge_graph", true, facts) }

  /** The entries an operation logs. */
  function Logged(op: Op): seq<StepEntry> {
    match op
    case Push(entry) => [entry]
    case InjectFacts(facts) => if facts == "" then [] else [FactsEntry(facts)]
  }

  /** Everything that was ever logged. */
  function FullLog(ops: seq<Op>): seq<StepEntry> {
    if ops == [] then [] else FullLog(ops[..|ops| - 1]) + Logged(ops[|ops| - 1])
  }

  function Capped(entries: seq<StepEntry>): seq<StepEntry> {
    if |entries| > STEP_HISTORY_CAP then entries[|entries| - STEP_HISTORY_CAP..] else entries
  }

  /** What the history holds. */
  function Kept(ops: seq<Op>): seq<StepEntry> {
    if ops == [] then []
    else
      var before, op := Kept(ops[..|ops| - 1]), ops[|ops| - 1];
      if op.Push? then Capped(before + Logged(op)) else before + Logged(op)
  }

  // ── Rendering ────────────────────────────────────────────────────────

  function Truncate(s: string, maxChars: nat): string { if |s| <= maxChars then s else s[..maxChars] }

  /** One line; recent entries show more of their output. */
  function RenderLine(e: StepEntry, age: nat): string {
    var output := if age < 3 then Truncate(e.output, 600) else if age < 8 then Truncate(e.output, 200) else "";
    var header := "[" + Decimal(e.index) + "] " + (if e.success then "\U{2713}" else "\U{2717}") + " " + e.desc;
    if output == "" then header else header + " \U{2192} " + output
  }

  function RenderLines(entries: seq<StepEntry>): (lines: seq<string>)
    ensures |lines| == |entries|
  {
    seq(|entries|, i requires 0 <= i < |entries| => RenderLine(entries[i], |entries| - 1 - i))
  }

  /**
   What a line shows: number, mark and description, and then an arrow and the output, cut after `limit`
   characters, unless there is nothing to show.
   */
  predicate Shows(line: string, e: StepEntry, limit: nat) {
    var shown := if |e.output| <= limit then e.output else e.output[..limit];
    var mark := if e.success then ['\U{2713}'] else ['\U{2717}'];
    line == "[" + Decimal(e.index) + "] " + mark + " " + e.desc + if shown == "" then "" else " \U{2192} " + shown
  }

  /** The last three entries show 600 characters of output, the five before them 200, and older ones none. */
  lemma LinesShow(entries: seq<StepEntry>, i: nat)
    requires i < |entries|
    ensures var fromEnd := |entries| - i;
            Shows(RenderLines(entries)[i], entries[i], if fromEnd <= 3 then 600 else if fromEnd <= 8 then 200 else 0)
  {
  }

  // ── The object ───────────────────────────────────────────────────────

  class StepHistory {
    var entries: seq<StepEntry>
    ghost var ops: seq<Op>

    ghost predicate Valid()
      reads this
    {
      entries == Kept(ops)
    }

    constructor ()
      ensures Valid() && entries == [] && ops == []
    {
      entries, ops := [], [];
    }

    method Push(index: nat, desc: string, success: bool, output: string)
      requires Valid()
      modifies this
      ensures Valid() && ops == old(ops) + [Op.Push(StepEntry(index, desc, success, output))]
      ensures |entries| <= STEP_HISTORY_CAP
      ensures entries != [] && entries[|entries| - 1] == StepEntry(index, desc, success, output)
    {
      ghost var op := Op.Push(StepEntry(index, desc, success, output));
      assert (ops + [op])[..|ops|] == ops;
      entries, ops := entries + [StepEntry(index, desc, success, output)], ops + [op];
      if |entries| > STEP_HISTORY_CAP {
        var excess := |entries| - STEP_HISTORY_CAP;
        entries := entries[excess..];
      }
    }

    method InjectFacts(facts: string)
      requires Valid()
      modifies this
      ensures Valid() && ops == old(ops) + [Op.InjectFacts(facts)]
      ensures entries == if facts == "" then old(entries) else old(entries) + [StepEntry(0, "knowledge_graph", true, facts)]
    {
      ghost var op := Op.InjectFacts(facts);
      assert (ops + [op])[..|ops|] == ops;
      ops := ops + [op];
      if facts == "" { return; }
      entries := entries + [FactsEntry(facts)];
    }
  }

  // ── What is kept, and how it is shown ────────────────────────────────

  predicate IsSuffix(s: seq<StepEntry>, t: seq<StepEntry>) { |s| <= |t| && s == t[|t| - |s|..] }

  lemma SuffixAppend(s: seq<StepEntry>, t: seq<StepEntry>, more: seq<StepEntry>)
    requires IsSuffix(s, t)
    ensures IsSuffix(s + more, t + more)
  {
  }

  lemma CappedIsSuffix(s: seq<StepEntry>, t: seq<StepEntry>)
    requires IsSuffix(s, t)
    ensures IsSuffix(Capped(s), t) && |Capped(s)| <= STEP_HISTORY_CAP
  {
    if |s| > STEP_HISTORY_CAP {
      var k := |s| - STEP_HISTORY_CAP;
      assert s[k..] == t[|t| - |s|..][k..] == t[|t| - STEP_HISTORY_CAP..];
    }
  }

  /** The kept entries are a suffix of the full log, and at most 30 of them after a push. */
  lemma {:induction false} KeptIsSuffix(ops: seq<Op>)
    ensures IsSuffix(Kept(ops), FullLog(ops))
    ensures ops != [] && ops[|ops| - 1].Push? ==> |Kept(ops)| <= STEP_HISTORY_CAP
  {
    if ops == [] {
    } else {
      var before, op := ops[..|ops| - 1], ops[|ops| - 1];
      KeptIsSuffix(before);
      SuffixAppend(Kept(before), FullLog(before), Logged(op));
      CappedIsSuffix(Kept(before) + Logged(op), FullLog(before) + Logged(op));
    }
  }

  /** A push keeps its entry and the ones before it, as many as there are and no more than 29; facts are never cut off. */
  lemma KeptAre(ops: seq<Op>)
    requires ops != []
    ensures var before, op := ops[..|ops| - 1], ops[|ops| - 1];
            && (op.Push? ==> |Kept(ops)| == (if |Kept(before)| < 30 then |Kept(before)| + 1 else 30)
                             && Kept(ops)[|Kept(ops)| - 1] == op.entry)
            && (op.InjectFacts? && op.facts != "" ==> Kept(ops) == Kept(before) + [StepEntry(0, "knowledge_graph", true, op.facts)])
            && (op.InjectFacts? && op.facts == "" ==> Kept(ops) == Kept(before))
  {
  }

  /** A line depends on its distance from the end only, so a suffix renders to the last lines. */
  lemma SuffixRendersLast(s: seq<StepEntry>, t: seq<StepEntry>)
    requires IsSuffix(s, t)
    ensures RenderLines(s) == RenderLines(t)[|t| - |s|..]
  {
    forall i | 0 <= i < |s| ensures RenderLines(s)[i] == RenderLines(t)[|t| - |s| + i] {
      assert s[i] == t[|t| - |s| + i];
    }
  }

  /** Capping commutes with rendering: the rendered lines are the last lines of rendering the full log. */
  lemma CapCommutesWithRendering(ops: seq<Op>)
    ensures |Kept(ops)| <= |FullLog(ops)|
    ensures RenderLines(Kept(ops)) == RenderLines(FullLog(ops))[|FullLog(ops)| - |Kept(ops)|..]
  {
    KeptIsSuffix(ops);
    SuffixRendersLast(Kept(ops), FullLog(ops));
  }
}
