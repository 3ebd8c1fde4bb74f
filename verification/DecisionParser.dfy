/** Reading a review decision out of a transcript. */
module DecisionParser {
  import opened TicketStates
  import opened Texts

  datatype Decision = Approve | Changes | Inspect | Unknown | TransportFailed

  datatype Method =
    | JsonFinalAnswer | JsonLastText | JsonNoDecision | TextRegex | ExplicitInspect | FallbackInspect
    | DecisionArtifact | LegacyManager | TransportFailure | NoMethod

  /** A text event of the transcript; lines that are no text event are left out. */
  datatype TextEvent = TextEvent(phase: string, text: string)

  /** The output of a review: its text, and the text events its lines parse to. */
  datatype Transcript = Transcript(raw: string, events: seq<TextEvent>)

  predicate IsStrong(d: Decision) {
    d in {Approve, Changes}
  }

  /** The decision an event states, if its phase is acceptable. */
  function DecisionIn(e: TextEvent, finalOnly: bool): Option<Decision> {
    var text := Upper(e.text);
    if finalOnly && e.phase != "final_answer" then None
    else if Contains(text, "DECISION: CHANGES") then Some(Changes)
    else if Contains(text, "DECISION: APPROVE") then Some(Approve)
    else if Contains(text, "DECISION: INSPECT") then Some(Inspect)
    else None
  }

  function FirstFinal(events: seq<TextEvent>): Option<Decision> {
    if events == [] then None
    else
      var d := DecisionIn(events[0], true);
      if d.Some? then d else FirstFinal(events[1..])
  }

  function LastText(events: seq<TextEvent>): Option<Decision> {
    if events == [] then None
    else
      var d := DecisionIn(events[|events| - 1], false);
      if d.Some? then d else LastText(events[..|events| - 1])
  }

  /** Among final answers the first decision wins; without regard to phase, the last. */
  method ExtractDecision(events: seq<TextEvent>, finalOnly: bool) returns (decision: Option<Decision>)
    ensures decision == if finalOnly then FirstFinal(events) else LastText(events)
  {
    decision := None;
    assert events[0..] == events;
    for i := 0 to |events|
      invariant finalOnly ==> decision == None && FirstFinal(events[i..]) == FirstFinal(events)
      invariant !finalOnly ==> decision == LastText(events[..i])
    {
      var found := DecisionIn(events[i], finalOnly);
      assert events[i..][1..] == events[i + 1..] && events[..i + 1][..i] == events[..i];
      if found.Some? {
        if finalOnly {
          return found;
        }
        decision := found;
      }
    }
    assert events[..|events|] == events;
  }

  predicate FollowsSpace(s: string, word: string) {
    word <= s || (s != "" && IsSpace(s[0]) && FollowsSpace(s[1..], word))
  }

  /** DECISION: and the word, with any space between them. */
  predicate Mentions(text: string, word: string) {
    ("DECISION:" <= text && FollowsSpace(text[9..], word)) || (text != "" && Mentions(text[1..], word))
  }

  /** How a text without a structured decision is read: never as a strong one. */
  function ReadPlainly(raw: string): (Decision, Method) {
    var text := Upper(raw);
    if Mentions(text, "CHANGES") || Mentions(text, "APPROVE") then (Inspect, TextRegex)
    else if Mentions(text, "INSPECT") then (Inspect, ExplicitInspect)
    else (Inspect, FallbackInspect)
  }

  function ParseJson(t: Transcript): (Decision, Method) {
    var first, last := FirstFinal(t.events), LastText(t.events);
    if first.Some? then (first.value, JsonFinalAnswer)
    else if last.Some? then (last.value, JsonLastText)
    else (Inspect, JsonNoDecision)
  }

  function Parse(t: Transcript): (Decision, Method) {
    var (decision, how) := ParseJson(t);
    if decision == Inspect then ReadPlainly(t.raw)
    else if how == JsonFinalAnswer then (decision, how)
    else (Inspect, how)
  }

  // ----- what the texts say -----

  /** c is the letter m of a mark, in either case. */
  predicate SameLetter(c: char, m: char) {
    c == m || ('A' <= m <= 'Z' && c as int == m as int + 32)
  }

  predicate MarkedAt(text: string, mark: string, i: nat) {
    i + |mark| <= |text| && forall k :: 0 <= k < |mark| ==> SameLetter(text[i + k], mark[k])
  }

  /** The mark stands somewhere in the text, in whatever case. */
  ghost predicate Marked(text: string, mark: string) {
    exists i: nat :: MarkedAt(text, mark, i)
  }

  predicate NoLowerCase(mark: string) {
    forall k :: 0 <= k < |mark| ==> !('a' <= mark[k] <= 'z')
  }

  lemma MarkedAtIff(text: string, mark: string, i: nat)
    requires NoLowerCase(mark)
    ensures OccursAt(Upper(text), mark, i) <==> MarkedAt(text, mark, i)
  {
    if i + |mark| <= |text| {
      forall k | 0 <= k < |mark| ensures Upper(text)[i..i + |mark|][k] == mark[k] <==> SameLetter(text[i + k], mark[k]) {
        assert !('a' <= mark[k] <= 'z');
      }
    }
  }

  lemma MarkedIff(text: string, mark: string)
    requires NoLowerCase(mark)
    ensures Contains(Upper(text), mark) <==> Marked(text, mark)
  {
    ContainsIffOccurs(Upper(text), mark);
    forall i: nat ensures OccursAt(Upper(text), mark, i) <==> MarkedAt(text, mark, i) {
      MarkedAtIff(text, mark, i);
    }
  }

  /** CHANGES outweighs APPROVE, and both outweigh INSPECT. */
  ghost predicate States(text: string, d: Decision) {
    match d
    case Changes => Marked(text, "DECISION: CHANGES")
    case Approve => Marked(text, "DECISION: APPROVE") && !Marked(text, "DECISION: CHANGES")
    case Inspect =>
      Marked(text, "DECISION: INSPECT") && !Marked(text, "DECISION: APPROVE") && !Marked(text, "DECISION: CHANGES")
    case _ => false
  }

  ghost predicate StatesNothing(text: string) {
    !Marked(text, "DECISION: CHANGES") && !Marked(text, "DECISION: APPROVE") && !Marked(text, "DECISION: INSPECT")
  }

  lemma DecisionIsStated(e: TextEvent, finalOnly: bool)
    ensures DecisionIn(e, finalOnly).None? <==> (finalOnly && e.phase != "final_answer") || StatesNothing(e.text)
    ensures DecisionIn(e, finalOnly).Some? ==> States(e.text, DecisionIn(e, finalOnly).value)
  {
    MarkedIff(e.text, "DECISION: CHANGES");
    MarkedIff(e.text, "DECISION: APPROVE");
    MarkedIff(e.text, "DECISION: INSPECT");
  }

  lemma StatesOne(text: string, d: Decision, other: Decision)
    requires States(text, d)
    ensures !StatesNothing(text) && (States(text, other) ==> other == d)
  {
  }

  ghost predicate FinalStates(e: TextEvent, d: Decision) {
    e.phase == "final_answer" && States(e.text, d)
  }

  ghost predicate FinalSilent(e: TextEvent) {
    e.phase == "final_answer" ==> StatesNothing(e.text)
  }

  /** Event i is the first final answer that states a decision, and it states d. */
  ghost predicate DecidesFirst(events: seq<TextEvent>, i: nat, d: Decision) {
    i < |events| && FinalStates(events[i], d) && forall k :: 0 <= k < i ==> FinalSilent(events[k])
  }

  /** Event i is the last event of any phase that states a decision, and it states d. */
  ghost predicate DecidesLast(events: seq<TextEvent>, i: nat, d: Decision) {
    i < |events| && States(events[i].text, d) && forall k :: i < k < |events| ==> StatesNothing(events[k].text)
  }

  lemma FinalIsStated(e: TextEvent, d: Decision)
    ensures DecisionIn(e, true) == Some(d) <==> FinalStates(e, d)
    ensures DecisionIn(e, true).None? <==> FinalSilent(e)
  {
    DecisionIsStated(e, true);
    if DecisionIn(e, true).Some? {
      StatesOne(e.text, DecisionIn(e, true).value, d);
    } else if FinalStates(e, d) {
      StatesOne(e.text, d, d);
    }
  }

  lemma TextIsStated(e: TextEvent, d: Decision)
    ensures DecisionIn(e, false) == Some(d) <==> States(e.text, d)
    ensures DecisionIn(e, false).None? <==> StatesNothing(e.text)
  {
    DecisionIsStated(e, false);
    if DecisionIn(e, false).Some? {
      StatesOne(e.text, DecisionIn(e, false).value, d);
    } else if States(e.text, d) {
      StatesOne(e.text, d, d);
    }
  }

  lemma {:induction false} FirstFinalIsFirst(events: seq<TextEvent>, d: Decision)
    ensures FirstFinal(events) == Some(d) <==> exists i: nat :: DecidesFirst(events, i, d)
  {
    if events != [] {
      var e, rest := events[0], events[1..];
      FirstFinalIsFirst(rest, d);
      FinalIsStated(e, d);
      if FinalSilent(e) {
        FirstOfRest(e, rest, d);
        assert [e] + rest == events;
      } else if FinalStates(e, d) {
        assert DecidesFirst(events, 0, d);
      }
    }
  }

  lemma FirstOfRest(e: TextEvent, rest: seq<TextEvent>, d: Decision)
    requires FinalSilent(e)
    ensures (exists i: nat :: DecidesFirst([e] + rest, i, d)) <==> exists i: nat :: DecidesFirst(rest, i, d)
  {
    var events := [e] + rest;
    if i: nat :| DecidesFirst(rest, i, d) {
      assert DecidesFirst(events, i + 1, d);
    }
    if i: nat :| DecidesFirst(events, i, d) {
      FinalIsStated(e, d);
      assert i > 0;
      forall k | 0 <= k < i - 1 ensures FinalSilent(rest[k]) {
        assert rest[k] == events[k + 1];
      }
      assert DecidesFirst(rest, i - 1, d);
    }
  }

  lemma LastOfInit(init: seq<TextEvent>, e: TextEvent, d: Decision)
    requires StatesNothing(e.text)
    ensures (exists i: nat :: DecidesLast(init + [e], i, d)) <==> exists i: nat :: DecidesLast(init, i, d)
  {
    var events := init + [e];
    if i: nat :| DecidesLast(init, i, d) {
      assert DecidesLast(events, i, d);
    }
    if i: nat :| DecidesLast(events, i, d) {
      TextIsStated(e, d);
      assert i < |init|;
      forall k | i < k < |init| ensures StatesNothing(init[k].text) {
        assert init[k] == events[k];
      }
      assert DecidesLast(init, i, d);
    }
  }

  lemma NothingBehind(events: seq<TextEvent>, i: nat, d: Decision, k: nat)
    requires DecidesLast(events, i, d) && k < |events| && !StatesNothing(events[k].text)
    ensures k <= i
  {
  }

  lemma LastDecides(init: seq<TextEvent>, e: TextEvent, d: Decision)
    requires !StatesNothing(e.text)
    ensures (exists i: nat :: DecidesLast(init + [e], i, d)) <==> States(e.text, d)
  {
    var events := init + [e];
    if States(e.text, d) {
      assert DecidesLast(events, |init|, d);
    }
    if i: nat :| DecidesLast(events, i, d) {
      NothingBehind(events, i, d, |init|);
    }
  }

  lemma {:induction false} LastTextIsLast(events: seq<TextEvent>, d: Decision)
    ensures LastText(events) == Some(d) <==> exists i: nat :: DecidesLast(events, i, d)
  {
    if events != [] {
      var e, init := events[|events| - 1], events[..|events| - 1];
      assert init + [e] == events;
      LastTextIsLast(init, d);
      TextIsStated(e, d);
      if StatesNothing(e.text) {
        LastOfInit(init, e, d);
      } else {
        LastDecides(init, e, d);
      }
    }
  }

  /**
   A strong decision is read exactly where the first final answer with one of
   the three marks states it: CHANGES where its text has that mark, APPROVE
   where it has that mark and not the one of CHANGES.
   */
  lemma StrongOnlyFromFinalAnswer(t: Transcript, d: Decision)
    requires IsStrong(d)
    ensures Parse(t).0 == d <==> exists i: nat :: DecidesFirst(t.events, i, d)
    ensures Parse(t).0 == d ==> Parse(t).1 == JsonFinalAnswer
  {
    FirstFinalIsFirst(t.events, d);
  }

  /** DECISION: at i, then the word at j, and nothing but space between them. */
  predicate SpacedAt(text: string, word: string, i: nat, j: nat) {
    && MarkedAt(text, "DECISION:", i) && i + 9 <= j && MarkedAt(text, word, j)
    && forall k :: i + 9 <= k < j ==> IsSpace(text[k])
  }

  ghost predicate Spaced(text: string, word: string) {
    exists i: nat, j: nat :: SpacedAt(text, word, i, j)
  }

  predicate FollowsAt(s: string, word: string, j: nat) {
    OccursAt(s, word, j) && forall k :: 0 <= k < j ==> IsSpace(s[k])
  }

  ghost predicate Follows(s: string, word: string) {
    exists j: nat :: FollowsAt(s, word, j)
  }

  lemma FollowsLater(s: string, word: string, j: nat)
    requires s != "" && IsSpace(s[0])
    ensures FollowsAt(s[1..], word, j) <==> FollowsAt(s, word, j + 1)
  {
    if j + 1 + |word| <= |s| {
      assert s[1..][j..j + |word|] == s[j + 1..j + 1 + |word|];
      assert forall k :: 0 <= k < j ==> s[1..][k] == s[k + 1];
      assert forall k :: 0 < k < j + 1 ==> s[k] == s[1..][k - 1];
    }
  }

  lemma FollowsAtOnce(s: string, word: string, j: nat)
    requires FollowsAt(s, word, j) && !(s != "" && IsSpace(s[0]))
    ensures word <= s
  {
  }

  lemma {:induction false} FollowsSpaceIff(s: string, word: string)
    ensures FollowsSpace(s, word) <==> Follows(s, word)
  {
    if word <= s {
      assert FollowsAt(s, word, 0);
    } else if s != "" && IsSpace(s[0]) {
      FollowsSpaceIff(s[1..], word);
      if j: nat :| FollowsAt(s[1..], word, j) {
        FollowsLater(s, word, j);
      }
      if j: nat :| FollowsAt(s, word, j) {
        assert j > 0;
        FollowsLater(s, word, j - 1);
      }
    } else if j: nat :| FollowsAt(s, word, j) {
      FollowsAtOnce(s, word, j);
      assert false;
    }
  }

  ghost predicate MentionedAt(text: string, word: string, i: nat) {
    OccursAt(text, "DECISION:", i) && Follows(text[i + 9..], word)
  }

  lemma {:induction false} MentionsIff(text: string, word: string)
    ensures Mentions(text, word) <==> exists i: nat :: MentionedAt(text, word, i)
  {
    if "DECISION:" <= text {
      FollowsSpaceIff(text[9..], word);
      assert MentionedAt(text, word, 0) <==> FollowsSpace(text[9..], word);
    } else {
      assert !MentionedAt(text, word, 0);
    }
    if text != "" {
      MentionsIff(text[1..], word);
      forall i: nat ensures MentionedAt(text[1..], word, i) <==> MentionedAt(text, word, i + 1) {
        if i + 10 <= |text| {
          assert text[1..][i..i + 9] == text[i + 1..i + 10] && text[1..][i + 9..] == text[i + 10..];
        }
      }
      if i: nat :| MentionedAt(text, word, i) && i > 0 {
        assert MentionedAt(text[1..], word, i - 1);
      }
    }
  }

  lemma FollowsIsSpaced(text: string, word: string, i: nat, j: nat)
    requires NoLowerCase(word) && i + 9 <= |text|
    ensures OccursAt(Upper(text), "DECISION:", i) && FollowsAt(Upper(text)[i + 9..], word, j)
       <==> SpacedAt(text, word, i, i + 9 + j)
  {
    MarkedAtIff(text, "DECISION:", i);
    MarkedAtIff(text, word, i + 9 + j);
    var rest := Upper(text)[i + 9..];
    if i + 9 + j + |word| <= |text| {
      assert rest[j..j + |word|] == Upper(text)[i + 9 + j..i + 9 + j + |word|];
      assert forall k :: 0 <= k < j ==> IsSpace(rest[k]) == IsSpace(text[i + 9 + k]);
      assert forall k :: i + 9 <= k < i + 9 + j ==> IsSpace(text[k]) == IsSpace(rest[k - i - 9]);
    }
  }

  lemma MentionedIsSpaced(text: string, word: string, i: nat)
    requires NoLowerCase(word) && MentionedAt(Upper(text), word, i)
    ensures Spaced(text, word)
  {
    var j: nat :| FollowsAt(Upper(text)[i + 9..], word, j);
    FollowsIsSpaced(text, word, i, j);
  }

  lemma SpacedIsMentioned(text: string, word: string, i: nat, j: nat)
    requires NoLowerCase(word) && SpacedAt(text, word, i, j)
    ensures MentionedAt(Upper(text), word, i)
  {
    FollowsIsSpaced(text, word, i, j - i - 9);
  }

  lemma MentionsIsSpaced(text: string, word: string)
    requires NoLowerCase(word)
    ensures Mentions(Upper(text), word) <==> Spaced(text, word)
  {
    MentionsIff(Upper(text), word);
    if i: nat :| MentionedAt(Upper(text), word, i) {
      MentionedIsSpaced(text, word, i);
    }
    if i: nat, j: nat :| SpacedAt(text, word, i, j) {
      SpacedIsMentioned(text, word, i, j);
    }
  }

  /** Some event decides d: the first final answer that states anything, or, where none does, the last text that does. */
  ghost predicate JsonStates(events: seq<TextEvent>, d: Decision) {
    || (exists i: nat :: DecidesFirst(events, i, d))
    || ((forall e :: e in events ==> FinalSilent(e)) && exists i: nat :: DecidesLast(events, i, d))
  }

  lemma {:induction false} AllSilentIff(events: seq<TextEvent>)
    ensures FirstFinal(events).None? <==> forall e :: e in events ==> FinalSilent(e)
  {
    if events != [] {
      AllSilentIff(events[1..]);
      FinalIsStated(events[0], Inspect);
      assert forall e :: e in events <==> e == events[0] || e in events[1..];
    }
  }

  lemma JsonIsStated(t: Transcript, d: Decision)
    requires d in {Approve, Changes, Inspect}
    ensures ParseJson(t).1 != JsonNoDecision && ParseJson(t).0 == d <==> JsonStates(t.events, d)
  {
    AllSilentIff(t.events);
    FirstFinalIsFirst(t.events, d);
    LastTextIsLast(t.events, d);
  }

  /** The parser gives up on a text, and is asked again, exactly when nothing in it reads as a decision. */
  lemma FallbackIff(t: Transcript)
    ensures Parse(t).1 == FallbackInspect <==>
            && !JsonStates(t.events, Approve) && !JsonStates(t.events, Changes)
            && !Spaced(t.raw, "CHANGES") && !Spaced(t.raw, "APPROVE") && !Spaced(t.raw, "INSPECT")
  {
    JsonIsStated(t, Approve);
    JsonIsStated(t, Changes);
    WeakJson(t);
    MentionsIsSpaced(t.raw, "CHANGES");
    MentionsIsSpaced(t.raw, "APPROVE");
    MentionsIsSpaced(t.raw, "INSPECT");
  }

  lemma WeakJson(t: Transcript)
    ensures ParseJson(t).0 in {Approve, Changes, Inspect} && (ParseJson(t).1 == JsonNoDecision ==> ParseJson(t).0 == Inspect)
  {
    if FirstFinal(t.events).Some? {
      FirstFinalIsFirst(t.events, FirstFinal(t.events).value);
    } else if LastText(t.events).Some? {
      LastTextIsLast(t.events, LastText(t.events).value);
    }
  }

  /** Besides the strong decisions there is only inspect. */
  lemma WeakIsInspect(t: Transcript)
    ensures !IsStrong(Parse(t).0) ==> Parse(t).0 == Inspect
  {
    if FirstFinal(t.events).Some? {
      FirstFinalIsFirst(t.events, FirstFinal(t.events).value);
    }
  }

  predicate TimedOut(stderr: string) {
    Contains(stderr, "TimeoutExpired")
  }

  predicate IsTechnicalFailure(t: Transcript, stderr: string) {
    TimedOut(stderr) || Contains(stderr, "FileNotFoundError") || Contains(stderr, "OSError") || Blank(t.raw)
  }

  /** The retries read the same text again, so they cost time and change nothing. */
  method ParseWithRetry(t: Transcript, stderr: string, maxRetries: nat) returns (decision: Decision, attempts: nat, how: Method)
    ensures (decision, how) == Parse(t)
    ensures attempts == if how == FallbackInspect && !IsTechnicalFailure(t, stderr) then 1 + maxRetries else 1
  {
    var parsed := Parse(t);
    decision, how, attempts := parsed.0, parsed.1, 1;
    if decision == Inspect && how == FallbackInspect {
      if !IsTechnicalFailure(t, stderr) {
        for retry := 0 to maxRetries
          invariant (decision, how) == Parse(t) && how == FallbackInspect
          invariant attempts == 1 + retry
        {
          var again := Parse(t);
          decision, how := again.0, again.1;
          attempts := attempts + 1;
          if how != FallbackInspect {
            break;
          }
        }
      }
    }
  }
}
