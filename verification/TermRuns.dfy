/**
 The terminals behind the ring. In a run of all the devices they go through a run of their own, of
 their requests, their status queries and the polls the ring leaves them.
 */
module TermRuns {
  import opened Devices
  import D = Disk
  import T = Terminal

  // The terminals' part in one step of the devices, and their answer.
  function Part(op: Op, o: Obs): seq<T.Op> {
    match op
    case TermRequest(unit, control) => [T.Control(unit, control)]
    case TermStatus(unit) => [T.GetStatus(unit)]
    case TimerTick(_, input) => if o.TermPoll? then [T.Tick(input)] else []
    case _ => []
  }

  function Answer(o: Obs): seq<T.Obs> {
    match o
    case TermAnswer(answer) => [answer]
    case TermPoll(raised) => [raised]
    case _ => []
  }

  function Parts(ops: seq<Op>, obs: seq<Obs>): seq<T.Op>
    requires |obs| == |ops|
    decreases |ops|
  {
    if ops == [] then [] else Part(ops[0], obs[0]) + Parts(ops[1..], obs[1..])
  }

  function Answers(obs: seq<Obs>): seq<T.Obs> {
    if obs == [] then [] else Answer(obs[0]) + Answers(obs[1..])
  }

  lemma StepPart(s: Sys, op: Op)
    requires Laid(s)
    ensures
      var r := Step(s, op);
      var part := Part(op, r.1);
      if part == [] then r.0.terms == s.terms && Answer(r.1) == []
      else part == [part[0]] && (r.0.terms, Answer(r.1)) == (T.Step(s.terms, part[0]).0, [T.Step(s.terms, part[0]).1])
  {
  }

  lemma RunCons(d: T.Terms, op: T.Op, rest: seq<T.Op>)
    requires T.Laid(d)
    ensures
      var one := T.Step(d, op);
      var r := T.Run(one.0, rest);
      T.Run(d, [op] + rest) == (r.0, [one.1] + r.1)
  {
    assert ([op] + rest)[1..] == rest;
  }

  lemma {:induction false} TermsRun(s: Sys, ops: seq<Op>)
    requires Laid(s)
    ensures
      var r := Devices.Run(s, ops);
      T.Run(s.terms, Parts(ops[..|r.1|], r.1)) == (r.0.terms, Answers(r.1))
    decreases |ops|
  {
    if ops != [] {
      var one, r := Step(s, ops[0]), Devices.Run(s, ops);
      RunFirst(s, ops);
      StepPart(s, ops[0]);
      var part, rest := Part(ops[0], one.1), Parts(ops[..|r.1|][1..], r.1[1..]);
      if !one.1.Final() {
        TermsRun(one.0, ops[1..]);
      }
      if part == [] {
        assert part + rest == rest;
        assert Answer(one.1) + Answers(r.1[1..]) == Answers(r.1[1..]);
      } else {
        RunCons(s.terms, part[0], rest);
      }
    }
  }

  // Over every run of all the devices the terminals show what four units with separate fields show,
  // and a unit's output grows by exactly the characters whose requests were answered with DEV_OK.
  lemma TermsStandBehindRing(s: Sys, i: T.IdealTerms, u: nat, ops: seq<Op>)
    requires Laid(s) && T.AllStand(s.terms, i) && u < T.UNITS
    ensures
      var r := Devices.Run(s, ops);
      var parts := Parts(ops[..|r.1|], r.1);
      var q := T.IdealRun(i, parts);
      && T.AllStand(r.0.terms, q.0) && Answers(r.1) == q.1
      && r.0.terms.units[u].output == s.terms.units[u].output + T.Sent(u, parts, q.1)
  {
    var r := Devices.Run(s, ops);
    var parts := Parts(ops[..|r.1|], r.1);
    TermsRun(s, ops);
    T.RunStands(s.terms, i, parts);
    T.OutputIsSent(s.terms, i, u, parts);
  }

  // From the start, whatever the devices are asked for.
  lemma OutputFromStart(n: nat, disks: seq<D.Unit>, u: nat, ops: seq<Op>)
    requires n > 0 && |disks| == DISK_UNITS && u < T.UNITS
    ensures
      var r := Devices.Run(Initial(n, disks), ops);
      var parts := Parts(ops[..|r.1|], r.1);
      |Answers(r.1)| == |parts| && r.0.terms.units[u].output == T.Sent(u, parts, Answers(r.1))
  {
    T.InitialStands();
    TermsStandBehindRing(Initial(n, disks), T.IDEAL_INITIAL, u, ops);
  }
}
