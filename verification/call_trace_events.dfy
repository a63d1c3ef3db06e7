/** The parser of core/src/call_trace_parser.rs on raw diagnostic events. */
module CallTraceEvents {
  import opened Wrappers
  import opened CallTrace
  import opened CallTraceTheorems

  /** What `parse_call_trace` returns for these events. */
  function Graph(events: seq<RawEvent>): Option<CallGraph> {
    Parsed(Steps(events))
  }

  // ---- Events that are skipped ---------------------------------------------------

  /**
   * Undecodable; not in a successful call; without topics; with a first topic that is no symbol, or a symbol other
   * than the two of interest; a call with fewer than three topics.
   */
  predicate IsNoise(e: RawEvent) {
    || e.Undecodable?
    || !e.inSuccessfulCall
    || |e.topics| == 0
    || e.topics[0].OtherValue?
    || (e.topics[0] != Symbol("fn_call") && e.topics[0] != Symbol("fn_return"))
    || (e.topics[0] == Symbol("fn_call") && |e.topics| < 3)
  }

  lemma NoiseIsSkipped(e: RawEvent)
    ensures IsNoise(e) <==> Classify(e) == Skip
  {
  }

  lemma {:induction false} SignificantAppend(a: seq<Step>, b: seq<Step>)
    ensures Significant(a + b) == Significant(a) + Significant(b)
    decreases |b|
  {
    if b == [] {
      assert a + b == a;
    } else {
      var n := |b|;
      assert (a + b)[..|a + b| - 1] == a + b[..n - 1];
      SignificantAppend(a, b[..n - 1]);
    }
  }

  lemma StepsAppend(a: seq<RawEvent>, b: seq<RawEvent>)
    ensures Steps(a + b) == Steps(a) + Steps(b)
  {
  }

  lemma SkipVanishes(before: seq<Step>, behind: seq<Step>)
    ensures Significant(before + [Skip] + behind) == Significant(before + behind)
  {
    hide Significant;
    SignificantAppend(before, [Skip]);
    SignificantAppend(before + [Skip], behind);
    SignificantAppend(before, behind);
    OneSkip();
    assert Significant(before) + [] == Significant(before);
  }

  lemma OneSkip()
    ensures Significant([Skip]) == []
  {
    assert [Skip][..0] == [];
  }

  /** Such an event changes nothing, wherever it stands. */
  lemma NoiseChangesNothing(before: seq<RawEvent>, e: RawEvent, behind: seq<RawEvent>)
    requires IsNoise(e)
    ensures Graph(before + [e] + behind) == Graph(before + behind)
  {
    hide Significant, IsNoise, FeedAll, Finish;
    NoiseIsSkipped(e);
    StepsAppend(before, [e]);
    StepsAppend(before + [e], behind);
    StepsAppend(before, behind);
    SkipVanishes(Steps(before), Steps(behind));
    assert Steps([e]) == [Skip];
    assert Steps(before + [e] + behind) == Steps(before) + [Skip] + Steps(behind);
    NoiseIsIgnored(Steps(before) + [Skip] + Steps(behind), Steps(before + behind));
  }

  // ---- Events that count ------------------------------------------------------------

  /** A successful call event of `c`'s function `f`; without a contract id it is the host's, without a name unknown. */
  predicate SaysCall(e: RawEvent, c: string, f: string) {
    && e.Diagnostic? && e.inSuccessfulCall && |e.topics| >= 3 && e.topics[0] == Symbol("fn_call")
    && c == (if e.contractId.Some? then e.contractId.value else "Host")
    && f == (if e.topics[2].Symbol? then e.topics[2].text else "unknown")
  }

  /** A successful return event. */
  predicate SaysReturn(e: RawEvent) {
    e.Diagnostic? && e.inSuccessfulCall && |e.topics| >= 1 && e.topics[0] == Symbol("fn_return")
  }

  predicate Says(e: RawEvent, s: Step) {
    match s
    case Enter(c, f) => SaysCall(e, c, f)
    case Exit => SaysReturn(e)
    case Skip => IsNoise(e)
  }

  lemma EveryEventSays(e: RawEvent, s: Step)
    ensures Says(e, s) <==> Classify(e) == s
  {
  }

  /** A lone call is its own graph, of the host or of an unknown function where the event does not say. */
  lemma LoneCall(e: RawEvent, second: Topic, third: Topic, c: string)
    ensures Graph([Diagnostic(true, Some(c), [Symbol("fn_call"), second, third])])
            == Some(CallGraph(CallNode(c, if third.Symbol? then third.text else "unknown", [])))
    ensures Graph([Diagnostic(true, None, [Symbol("fn_call"), second, third])])
            == Some(CallGraph(CallNode("Host", if third.Symbol? then third.text else "unknown", [])))
    ensures IsNoise(e) || SaysReturn(e) ==> Graph([e]) == None
  {
    LoneStep(Diagnostic(true, Some(c), [Symbol("fn_call"), second, third]));
    LoneStep(Diagnostic(true, None, [Symbol("fn_call"), second, third]));
    LoneStep(e);
  }

  lemma LoneStep(e: RawEvent)
    ensures Graph([e]) == match Classify(e)
                          case Enter(c, f) => Some(CallGraph(CallNode(c, f, [])))
                          case _ => None
  {
    assert Steps([e]) == [Classify(e)];
    FeedOne(START, Classify(e));
  }

  // ---- Round trip through events ---------------------------------------------------------

  /** The events say these steps in order, with skipped events anywhere between them. */
  predicate Tells(events: seq<RawEvent>, steps: seq<Step>) {
    if events == [] then steps == []
    else
      var n := |events|;
      || (IsNoise(events[n - 1]) && Tells(events[..n - 1], steps))
      || (steps != [] && steps[|steps| - 1] != Skip && Says(events[n - 1], steps[|steps| - 1])
          && Tells(events[..n - 1], steps[..|steps| - 1]))
  }

  lemma {:induction false} ToldStepsAreSignificant(events: seq<RawEvent>, steps: seq<Step>)
    requires Tells(events, steps)
    ensures Significant(Steps(events)) == steps
    decreases |events|
  {
    hide IsNoise, Says, Significant;
    NoSteps();
    if events != [] {
      var before, e := events[..|events| - 1], events[|events| - 1];
      LastStep(events);
      NoiseIsSkipped(e);
      if IsNoise(e) && Tells(before, steps) {
        ToldStepsAreSignificant(before, steps);
      } else {
        EveryEventSays(e, steps[|steps| - 1]);
        ToldStepsAreSignificant(before, steps[..|steps| - 1]);
      }
    }
  }

  lemma NoSteps()
    ensures Significant(Steps([])) == []
  {
  }

  lemma LastStep(events: seq<RawEvent>)
    requires events != []
    ensures var before, s := Significant(Steps(events[..|events| - 1])), Classify(events[|events| - 1]);
            Significant(Steps(events)) == if s == Skip then before else before + [s]
  {
    hide Significant;
    var before, e := events[..|events| - 1], events[|events| - 1];
    StepsAppend(before, [e]);
    assert events == before + [e] && Steps([e]) == [Classify(e)];
    SignificantAppend(Steps(before), [Classify(e)]);
    OneSignificant(Classify(e));
  }

  lemma OneSignificant(s: Step)
    ensures Significant([s]) == if s == Skip then [] else [s]
  {
    assert [s][..0] == [];
  }

  /** Any events that tell a call and all that happens in it, with any noise between them, give that call back. */
  lemma EventsRoundTrip(t: CallNode, events: seq<RawEvent>)
    requires Tells(events, Emit(t))
    ensures Graph(events) == Some(CallGraph(t))
  {
    ToldStepsAreSignificant(events, Emit(t));
    RoundTrip(t, Steps(events));
  }

  /** Events cut off within a call give the outermost call with exactly its completed direct sub-calls. */
  lemma EventsCutOff(t: CallNode, events: seq<RawEvent>, k: nat)
    requires 0 < k < |Emit(t)| && Tells(events, Emit(t)[..k])
    ensures Graph(events)
            == Some(CallGraph(CallNode(t.contractId, t.functionName, t.children[..Completed(t.children, k - 1)])))
  {
    ToldStepsAreSignificant(events, Emit(t)[..k]);
    SignificantOfClean(Emit(t)[..k]);
    NoiseIsIgnored(Steps(events), Emit(t)[..k]);
    TruncatedTrace(t, k);
  }

  /** A call that makes two calls, the first of which makes one: nesting and order are those of the events. */
  lemma NestingExample(a: string, b: string, c: string, d: string, f: string)
    ensures var tree := CallNode(a, f, [CallNode(b, f, [CallNode(c, f, [])]), CallNode(d, f, [])]);
            Emit(tree) == [Enter(a, f), Enter(b, f), Enter(c, f), Exit, Exit, Enter(d, f), Exit, Exit]
  {
    var leaf, last := CallNode(c, f, []), CallNode(d, f, []);
    assert EmitAll([leaf]) == Emit(leaf) + EmitAll([]) by { assert [leaf][1..] == []; }
    assert EmitAll([last]) == Emit(last) + EmitAll([]) by { assert [last][1..] == []; }
    var first := CallNode(b, f, [leaf]);
    assert [first, last][1..] == [last];
    assert EmitAll([first, last]) == Emit(first) + EmitAll([last]);
  }
}
