/** Several calls of the privileged side at once: each connection has its own thread, every
    call writes the one rule file and then has it loaded, and no lock is held in between. */
module RuleFile {
  import opened Common
  import opened Firewall

  /** A call that has written its rules, or that has answered. */
  datatype Call = Written | Answered(ok: bool)

  datatype State = State(file: seq<Rule>, rules: seq<Rule>, calls: map<int, Call>)

  datatype Event =
    | Write(t: int, mappings: seq<Mapping>)
    | LoadFile(t: int, load: Load)

  const INIT := State([], [], map[])

  /** A call that brings a bad mapping is answered without a write; a load that takes
      effect replaces the rules by what the file holds. */
  function Next(s: State, e: Event): State {
    match e
    case Write(t, ms) =>
      if AllValid(ms) then s.(file := RulesOf(ms), calls := s.calls[t := Written])
      else s.(calls := s.calls[t := Answered(false)])
    case LoadFile(t, load) =>
      if t !in s.calls || s.calls[t] != Written then s
      else s.(rules := if load == NotApplied then s.rules else s.file, calls := s.calls[t := Answered(load == Applied)])
  }

  function RunFrom(s: State, events: seq<Event>): State {
    if events == [] then s else Next(RunFrom(s, events[..|events| - 1]), events[|events| - 1])
  }

  function Run(events: seq<Event>): State {
    RunFrom(INIT, events)
  }

  /** The rules of the last write among the events, if there is one. */
  function LastWrite(events: seq<Event>): Option<seq<Rule>> {
    if events == [] then None
    else
      var e := events[|events| - 1];
      if e.Write? && AllValid(e.mappings) then Some(RulesOf(e.mappings)) else LastWrite(events[..|events| - 1])
  }

  lemma {:induction false} OthersLeaveTheCall(s: State, events: seq<Event>, t: int)
    requires t in s.calls && s.calls[t] == Written
    requires forall i :: 0 <= i < |events| ==> events[i].t != t
    ensures var r := RunFrom(s, events);
            && t in r.calls && r.calls[t] == Written
            && r.file == (if LastWrite(events).Some? then LastWrite(events).value else s.file)
  {
    hide AllValid, RulesOf;
    if events != [] {
      OthersLeaveTheCall(s, events[..|events| - 1], t);
    }
  }

  lemma {:induction false} RunConcat(s: State, a: seq<Event>, b: seq<Event>)
    ensures RunFrom(s, a + b) == RunFrom(RunFrom(s, a), b)
  {
    hide Next;
    if b == [] {
      assert a + b == a;
    } else {
      RunConcat(s, a, b[..|b| - 1]);
      assert (a + b)[..|a + b| - 1] == a + b[..|b| - 1];
    }
  }

  /** After any run, a call whose mappings are good and whose load takes effect is answered
      accordingly, but its own rules are in effect exactly when the last write of any other
      call between its own write and its load, if there was one, had the same rules. */
  lemma {:induction false} OwnRulesTakeEffectIff(
    before: seq<Event>, t: int, mappings: seq<Mapping>, between: seq<Event>, load: Load)
    requires AllValid(mappings) && load != NotApplied
    requires forall i :: 0 <= i < |between| ==> between[i].t != t
    ensures var r := Run(before + [Write(t, mappings)] + between + [LoadFile(t, load)]);
            && t in r.calls && r.calls[t] == Answered(load == Applied)
            && (r.rules == RulesOf(mappings) <==>
                  LastWrite(between).None? || LastWrite(between).value == RulesOf(mappings))
  {
    hide AllValid, RulesOf, LastWrite;
    var s := Run(before);
    RunConcat(INIT, before, [Write(t, mappings)]);
    var written := Run(before + [Write(t, mappings)]);
    OneEvent(s, Write(t, mappings));
    RunConcat(INIT, before + [Write(t, mappings)], between);
    OthersLeaveTheCall(written, between, t);
    RunConcat(INIT, before + [Write(t, mappings)] + between, [LoadFile(t, load)]);
    OneEvent(RunFrom(written, between), LoadFile(t, load));
  }

  /** A call with a bad mapping is answered with a failure and leaves the file and the rules
      as they were. */
  lemma {:induction false} BadMappingIsRefused(before: seq<Event>, t: int, mappings: seq<Mapping>)
    requires exists i :: 0 <= i < |mappings| && !ValidMapping(mappings[i])
    ensures var s, r := Run(before), Run(before + [Write(t, mappings)]);
            && t in r.calls && r.calls[t] == Answered(false)
            && r.file == s.file && r.rules == s.rules
  {
    hide ValidMapping;
    assert (before + [Write(t, mappings)])[..|before|] == before;
  }

  lemma OneEvent(s: State, e: Event)
    ensures RunFrom(s, [e]) == Next(s, e)
  {
    hide Next;
    assert [e][..0] == [];
  }
}
