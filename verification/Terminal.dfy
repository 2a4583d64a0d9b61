/**
 The terminal device of src/dev_term.c: four units with a packed status word each, polled in turn.
 */
module Terminal {

  const UNITS := 4

  const DEV_READY := 0
  const DEV_BUSY := 1
  const DEV_OK := DEV_READY
  const DEV_INVALID := 2

  /* ---- The status word -------------------------------------------------------------------- */

  function Recv(status: bv32): bv32 { status & 0x3 }

  function Xmit(status: bv32): bv32 { (status >> 2) & 0x3 }

  function Char(status: bv32): bv32 { (status >> 8) & 0xff }

  function SetRecv(status: bv32, value: bv32): bv32 { (status & !0x3) | (value & 0x3) }

  function SetXmit(status: bv32, value: bv32): bv32 { (status & !0xc) | ((value & 0x3) << 2) }

  function SetChar(status: bv32, ch: bv32): bv32 { (status & !0xff00) | ((ch & 0xff) << 8) }

  // The three fields of the word are independent: setting one is read back, and leaves the others.
  lemma RecvField(status: bv32, value: bv32)
    ensures
      var r := SetRecv(status, value);
      Recv(r) == value & 0x3 && Xmit(r) == Xmit(status) && Char(r) == Char(status)
  {
  }

  lemma XmitField(status: bv32, value: bv32)
    ensures
      var r := SetXmit(status, value);
      Xmit(r) == value & 0x3 && Recv(r) == Recv(status) && Char(r) == Char(status)
  {
  }

  lemma CharField(status: bv32, ch: bv32)
    ensures
      var r := SetChar(status, ch);
      Char(r) == ch & 0xff && Recv(r) == Recv(status) && Xmit(r) == Xmit(status)
  {
  }

  /* ---- The device ------------------------------------------------------------------------- */

  // What the input stream has for a poll: nothing, or a character.
  datatype Incoming = Eof | Ch(c: bv32)

  datatype Unit = Unit(status: bv32, control: bv32, output: seq<bv32>)

  // `last` is the unit polled last, -1 before the first poll.
  datatype Terms = Terms(units: seq<Unit>, last: int)

  predicate Sends(req: bv32) { req & 0x1 != 0 }

  predicate WantsRecv(control: bv32) { control & 0x2 != 0 }

  predicate WantsXmit(control: bv32) { control & 0x4 != 0 }

  function Character(req: bv32): bv32 { (req >> 8) & 0xff }

  // term_request for an existing unit.
  function Request(d: Unit, req: bv32): (r: (Unit, int)) {
    var d1 := d.(control := req);
    if !Sends(req) then (d1, DEV_OK)
    else if Xmit(d.status) == 0 then
      (d1.(output := d.output + [Character(req)], status := SetXmit(d.status, 1)), DEV_OK)
    else if Xmit(d.status) == 1 then (d1, DEV_BUSY)
    else (d1, DEV_OK)
  }

  // The unit's status after its part of a poll that reads a character.
  function Received(status: bv32, input: Incoming): bv32 {
    if Got(input) then SetRecv(SetChar(status, input.c), 1) else SetRecv(status, 0)
  }

  predicate Got(input: Incoming) {
    input.Ch? && input.c & 0xff != 64
  }

  // And after the part that ends a transmission.
  function Idled(status: bv32): bv32 {
    if Xmit(status) == 1 then SetXmit(status, 0) else status
  }

  // term_action for the unit whose turn it is; whether an interrupt is raised.
  function Poll(d: Unit, input: Incoming): (r: (Unit, bool)) {
    var received := Received(d.status, input);
    (d.(status := Idled(received)),
     (Got(input) && WantsRecv(d.control)) || (Xmit(received) == 1 && WantsXmit(d.control)))
  }

  // The unit whose turn it is.
  function Next(last: int): (u: nat)
    requires -1 <= last < UNITS
    ensures u < UNITS
  {
    (last + 1) % 4
  }

  datatype Op = Control(unit: int, req: bv32) | GetStatus(unit: int) | Tick(input: Incoming)

  // The code returned, the status word with it, or the unit an interrupt is raised for (or -1).
  datatype Obs = Code(code: int) | Word(word: bv32) | Raised(unit: int)

  predicate Laid(d: Terms) {
    |d.units| == UNITS && -1 <= d.last < UNITS
  }

  function Step(d: Terms, op: Op): (r: (Terms, Obs))
    requires Laid(d)
    ensures Laid(r.0)
  {
    match op
    case Control(u, req) =>
      if u < 0 || u > 3 then (d, Code(DEV_INVALID))
      else var r := Request(d.units[u], req); (d.(units := d.units[u := r.0]), Code(r.1))
    case GetStatus(u) =>
      if u < 0 || u > 3 then (d, Code(DEV_INVALID))
      else
        var s := d.units[u].status;
        (d.(units := d.units[u := d.units[u].(status := SetRecv(s, 0))]), Word(s))
    case Tick(input) =>
      var u := Next(d.last);
      var r := Poll(d.units[u], input);
      (Terms(d.units[u := r.0], u), Raised(if r.1 then u else -1))
  }

  function Run(d: Terms, ops: seq<Op>): (r: (Terms, seq<Obs>))
    requires Laid(d)
    ensures Laid(r.0) && |r.1| == |ops|
    decreases |ops|
  {
    if ops == [] then (d, [])
    else
      var one := Step(d, ops[0]);
      var rest := Run(one.0, ops[1..]);
      (rest.0, [one.1] + rest.1)
  }

  const INITIAL := Terms(seq(UNITS, i => Unit(0, 0, [])), -1)

  /* ---- The device with its fields unpacked ------------------------------------------------ */

  // A transmitter that is idle or busy, a receiver that is empty or full, the character received
  // last, the control register and what has been sent.
  datatype Ideal = Ideal(busy: bool, full: bool, ch: bv32, control: bv32, output: seq<bv32>)

  datatype IdealTerms = IdealTerms(units: seq<Ideal>, last: int)

  // The word with the given character, transmit and receive fields.
  function Fields(ch: bv32, xmit: bv32, recv: bv32): bv32 {
    ((ch & 0xff) << 8) | ((xmit & 0x3) << 2) | (recv & 0x3)
  }

  function Bit(b: bool): bv32 { if b then 1 else 0 }

  function Pack(i: Ideal): bv32 {
    Fields(i.ch, Bit(i.busy), Bit(i.full))
  }

  function IdealRequest(i: Ideal, req: bv32): (Ideal, int) {
    if Sends(req) && i.busy then (i.(control := req), DEV_BUSY)
    else if Sends(req) then (i.(control := req, busy := true, output := i.output + [Character(req)]), DEV_OK)
    else (i.(control := req), DEV_OK)
  }

  function IdealPoll(i: Ideal, input: Incoming): (Ideal, bool) {
    var got := input.Ch? && input.c & 0xff != 64;
    (i.(busy := false, full := got, ch := if got then input.c else i.ch),
     (got && WantsRecv(i.control)) || (i.busy && WantsXmit(i.control)))
  }

  predicate IdealLaid(d: IdealTerms) {
    |d.units| == UNITS && -1 <= d.last < UNITS
  }

  function IdealStep(d: IdealTerms, op: Op): (r: (IdealTerms, Obs))
    requires IdealLaid(d)
    ensures IdealLaid(r.0)
  {
    match op
    case Control(u, req) =>
      if !(0 <= u < UNITS) then (d, Code(DEV_INVALID))
      else var r := IdealRequest(d.units[u], req); (d.(units := d.units[u := r.0]), Code(r.1))
    case GetStatus(u) =>
      if !(0 <= u < UNITS) then (d, Code(DEV_INVALID))
      else (d.(units := d.units[u := d.units[u].(full := false)]), Word(Pack(d.units[u])))
    case Tick(input) =>
      var u := (d.last + 1) % UNITS;
      var r := IdealPoll(d.units[u], input);
      (IdealTerms(d.units[u := r.0], u), Raised(if r.1 then u else -1))
  }

  function IdealRun(d: IdealTerms, ops: seq<Op>): (r: (IdealTerms, seq<Obs>))
    requires IdealLaid(d)
    ensures IdealLaid(r.0) && |r.1| == |ops|
    decreases |ops|
  {
    if ops == [] then (d, [])
    else
      var one := IdealStep(d, ops[0]);
      var rest := IdealRun(one.0, ops[1..]);
      (rest.0, [one.1] + rest.1)
  }

  // A unit and its unpacked fields.
  predicate Stands(d: Unit, i: Ideal) {
    d.status == Pack(i) && d.control == i.control && d.output == i.output
  }

  lemma ReadFields(ch: bv32, xmit: bv32, recv: bv32)
    ensures Recv(Fields(ch, xmit, recv)) == recv & 0x3
    ensures Xmit(Fields(ch, xmit, recv)) == xmit & 0x3
    ensures Char(Fields(ch, xmit, recv)) == ch & 0xff
  {
  }

  lemma WriteRecv(ch: bv32, xmit: bv32, recv: bv32, v: bv32)
    ensures SetRecv(Fields(ch, xmit, recv), v) == Fields(ch, xmit, v)
  {
  }

  lemma WriteXmit(ch: bv32, xmit: bv32, recv: bv32, v: bv32)
    ensures SetXmit(Fields(ch, xmit, recv), v) == Fields(ch, v, recv)
  {
  }

  lemma WriteChar(ch: bv32, xmit: bv32, recv: bv32, v: bv32)
    ensures SetChar(Fields(ch, xmit, recv), v) == Fields(v, xmit, recv)
  {
  }

  lemma {:induction false} PackFields(i: Ideal)
    ensures Recv(Pack(i)) == Bit(i.full) && Xmit(Pack(i)) == Bit(i.busy)
    ensures SetRecv(Pack(i), 0) == Pack(i.(full := false))
    ensures SetRecv(Pack(i), 1) == Pack(i.(full := true))
    ensures SetXmit(Pack(i), 0) == Pack(i.(busy := false))
    ensures SetXmit(Pack(i), 1) == Pack(i.(busy := true))
  {
    ReadFields(i.ch, Bit(i.busy), Bit(i.full));
    assert Bit(i.full) & 0x3 == Bit(i.full) && Bit(i.busy) & 0x3 == Bit(i.busy);
    WriteRecv(i.ch, Bit(i.busy), Bit(i.full), 0);
    WriteRecv(i.ch, Bit(i.busy), Bit(i.full), 1);
    WriteXmit(i.ch, Bit(i.busy), Bit(i.full), 0);
    WriteXmit(i.ch, Bit(i.busy), Bit(i.full), 1);
  }

  lemma PackChar(i: Ideal, ch: bv32)
    ensures SetChar(Pack(i), ch) == Pack(i.(ch := ch))
  {
    WriteChar(i.ch, Bit(i.busy), Bit(i.full), ch);
  }

  lemma {:induction false} RequestStands(d: Unit, i: Ideal, req: bv32)
    requires Stands(d, i)
    ensures
      var r, q := Request(d, req), IdealRequest(i, req);
      Stands(r.0, q.0) && r.1 == q.1
  {
    PackFields(i);
  }

  lemma PollStands(d: Unit, i: Ideal, input: Incoming)
    requires Stands(d, i)
    ensures
      var r, q := Poll(d, input), IdealPoll(i, input);
      Stands(r.0, q.0) && r.1 == q.1
  {
    PackFields(i);
    var got := input.Ch? && input.c & 0xff != 64;
    if got {
      PackChar(i, input.c);
      PackFields(i.(ch := input.c));
      PackFields(i.(ch := input.c, full := true));
    } else {
      PackFields(i.(full := false));
    }
  }

  ghost predicate AllStand(d: Terms, i: IdealTerms) {
    Laid(d) && IdealLaid(i) && d.last == i.last && (forall u :: 0 <= u < UNITS ==> Stands(d.units[u], i.units[u]))
  }

  lemma UpdateStands(d: Terms, i: IdealTerms, u: nat, x: Unit, y: Ideal)
    requires AllStand(d, i) && u < UNITS && Stands(x, y)
    ensures AllStand(d.(units := d.units[u := x]), i.(units := i.units[u := y]))
  {
  }

  lemma StepStands(d: Terms, i: IdealTerms, op: Op)
    requires AllStand(d, i)
    ensures
      var r, q := Step(d, op), IdealStep(i, op);
      AllStand(r.0, q.0) && r.1 == q.1
  {
    match op
    case Control(u, req) =>
      if 0 <= u < UNITS {
        RequestStands(d.units[u], i.units[u], req);
        UpdateStands(d, i, u, Request(d.units[u], req).0, IdealRequest(i.units[u], req).0);
      }
    case GetStatus(u) =>
      if 0 <= u < UNITS {
        PackFields(i.units[u]);
        UpdateStands(d, i, u, d.units[u].(status := SetRecv(d.units[u].status, 0)), i.units[u].(full := false));
      }
    case Tick(input) => TickStands(d, i, input);
  }

  lemma TickStands(d: Terms, i: IdealTerms, input: Incoming)
    requires AllStand(d, i)
    ensures
      var r, q := Step(d, Tick(input)), IdealStep(i, Tick(input));
      AllStand(r.0, q.0) && r.1 == q.1
  {
    var u := Next(d.last);
    var x, y := Poll(d.units[u], input), IdealPoll(i.units[u], input);
    PollStands(d.units[u], i.units[u], input);
    UpdateStands(d, i, u, x.0, y.0);
  }

  // Over every run the packed device shows what the unpacked one shows: its transmitter, its
  // receiver and its character never disturb each other.
  lemma {:induction false} RunStands(d: Terms, i: IdealTerms, ops: seq<Op>)
    requires AllStand(d, i)
    ensures
      var r, q := Run(d, ops), IdealRun(i, ops);
      AllStand(r.0, q.0) && r.1 == q.1
    decreases |ops|
  {
    if ops != [] {
      StepStands(d, i, ops[0]);
      RunStands(Step(d, ops[0]).0, IdealStep(i, ops[0]).0, ops[1..]);
    }
  }

  const IDEAL_INITIAL := IdealTerms(seq(UNITS, i => Ideal(false, false, 0, 0, [])), -1)

  lemma InitialStands()
    ensures AllStand(INITIAL, IDEAL_INITIAL)
  {
  }

  /* ---- What is sent, and when the transmitter is ready again ------------------------------ */

  // The characters of the send requests to unit u that were answered with DEV_OK.
  function Sent(u: int, ops: seq<Op>, obs: seq<Obs>): seq<bv32>
    requires |obs| == |ops|
    decreases |ops|
  {
    if ops == [] then []
    else
      (if ops[0].Control? && ops[0].unit == u && Sends(ops[0].req) && obs[0] == Code(DEV_OK)
       then [Character(ops[0].req)] else [])
      + Sent(u, ops[1..], obs[1..])
  }

  // Over every run the output of a unit grows by exactly the characters whose requests were
  // answered with DEV_OK, in order.
  lemma {:induction false} OutputIsSent(d: Terms, i: IdealTerms, u: nat, ops: seq<Op>)
    requires AllStand(d, i) && u < UNITS
    ensures Run(d, ops).0.units[u].output == d.units[u].output + Sent(u, ops, Run(d, ops).1)
    decreases |ops|
  {
    if ops != [] {
      StepStands(d, i, ops[0]);
      var one := Step(d, ops[0]);
      OutputIsSent(one.0, IdealStep(i, ops[0]).0, u, ops[1..]);
      StepSends(d, i, u, ops[0]);
      var rest := Sent(u, ops[1..], Run(one.0, ops[1..]).1);
      assert Run(d, ops).1[1..] == Run(one.0, ops[1..]).1;
    }
  }

  lemma {:induction false} StepSends(d: Terms, i: IdealTerms, u: nat, op: Op)
    requires AllStand(d, i) && u < UNITS
    ensures
      var r := Step(d, op);
      r.0.units[u].output == d.units[u].output +
        (if op.Control? && op.unit == u && Sends(op.req) && r.1 == Code(DEV_OK) then [Character(op.req)] else [])
  {
    StepStands(d, i, op);
    PackFields(i.units[u]);
  }

  // The polls up to and including the next one of unit u: one to four.
  function Distance(last: int, u: nat): (n: nat)
    requires -1 <= last < UNITS && u < UNITS
    ensures 1 <= n <= 4
  {
    if u > last then u - last else u - last + 4
  }

  function Polls(ops: seq<Op>): nat {
    if ops == [] then 0 else (if ops[0].Tick? then 1 else 0) + Polls(ops[1..])
  }

  // Each poll brings a unit's turn one poll nearer, and on its turn the transmitter becomes ready.
  lemma TickTurns(d: Terms, i: IdealTerms, u: nat, input: Incoming)
    requires AllStand(d, i) && u < UNITS
    ensures
      var r := Step(d, Tick(input)).0;
      if Distance(d.last, u) == 1 then Xmit(r.units[u].status) == 0 else Distance(r.last, u) == Distance(d.last, u) - 1
  {
    TickStands(d, i, input);
    PackFields(IdealStep(i, Tick(input)).0.units[u]);
  }

  // By its next turn, at most four polls away, a unit's transmitter has been ready again, whatever
  // is asked of the terminals meanwhile.
  lemma {:induction false} ReadyWithinFour(d: Terms, i: IdealTerms, u: nat, ops: seq<Op>) returns (k: nat)
    requires AllStand(d, i) && u < UNITS && Polls(ops) >= Distance(d.last, u)
    ensures k <= |ops| && Polls(ops[..k]) == Distance(d.last, u)
    ensures Xmit(Run(d, ops[..k]).0.units[u].status) == 0
    decreases |ops|
  {
    var one := Step(d, ops[0]);
    StepStands(d, i, ops[0]);
    if ops[0].Tick? {
      TickTurns(d, i, u, ops[0].input);
    }
    if ops[0].Tick? && Distance(d.last, u) == 1 {
      k := 1;
      assert ops[..1] == [ops[0]];
    } else {
      var j := ReadyWithinFour(one.0, IdealStep(i, ops[0]).0, u, ops[1..]);
      k := j + 1;
      assert ops[..k][1..] == ops[1..][..j];
      assert ops[..k][0] == ops[0];
    }
  }

  /* ---- The device as the program keeps it ------------------------------------------------- */

  class TermDevice {
    const terms: array<Unit>
    var last: int

    predicate Valid()
      reads this, terms
    {
      terms.Length == UNITS && -1 <= last < UNITS
    }

    function State(): (d: Terms)
      requires Valid()
      reads this, terms
      ensures Laid(d)
    {
      Terms(terms[..], last)
    }

    constructor ()
      ensures Valid() && fresh(terms) && State() == INITIAL
    {
      terms := new Unit[UNITS](i => Unit(0, 0, []));
      last := -1;
      new;
      assert terms[..] == INITIAL.units;
    }

    method TermGetStatus(u: int) returns (obs: Obs)
      requires Valid()
      modifies terms
      ensures Valid() && (State(), obs) == Step(old(State()), GetStatus(u))
    {
      if u < 0 || u > 3 {
        return Code(DEV_INVALID);
      }
      obs := Word(terms[u].status);
      RecvField(terms[u].status, 0);
      terms[u] := terms[u].(status := SetRecv(terms[u].status, 0));
      assert Recv(terms[u].status) == 0;
    }

    method TermRequest(u: int, req: bv32) returns (obs: Obs)
      requires Valid()
      modifies terms
      ensures Valid() && (State(), obs) == Step(old(State()), Control(u, req))
    {
      if u < 0 || u > 3 {
        return Code(DEV_INVALID);
      }
      ghost var was := terms[..];
      terms[u] := terms[u].(control := req);
      obs := Code(DEV_OK);
      if Sends(req) {
        if Xmit(terms[u].status) == 0 {
          terms[u] := terms[u].(output := terms[u].output + [Character(req)],
                                status := SetXmit(terms[u].status, 1));
        } else if Xmit(terms[u].status) == 1 {
          obs := Code(DEV_BUSY);
        }
      }
      assert terms[..] == was[u := Request(was[u], req).0];
    }

    method TermAction(input: Incoming) returns (obs: Obs)
      requires Valid()
      modifies this, terms
      ensures Valid() && (State(), obs) == Step(old(State()), Tick(input))
    {
      var result := -1;
      last := (last + 1) % 4;
      var u := last;
      ghost var was := terms[..];
      var got := Receive(u, input);
      if got {
        result := u;
      }
      var sent := EndSend(u);
      if sent {
        result := u;
      }
      assert terms[..] == was[u := Poll(was[u], input).0];
      return Raised(result);
    }

    // The receive side of a poll, and whether it is to raise an interrupt.
    method Receive(u: nat, input: Incoming) returns (raise: bool)
      requires Valid() && u < UNITS
      modifies terms
      ensures terms[..] == old(terms[..])[u := old(terms[u]).(status := Received(old(terms[u].status), input))]
      ensures raise <==> Got(input) && WantsRecv(old(terms[u].control))
    {
      if input.Ch? && input.c & 0xff != 64 {
        terms[u] := terms[u].(status := SetRecv(SetChar(terms[u].status, input.c), 1));
        return WantsRecv(terms[u].control);
      }
      terms[u] := terms[u].(status := SetRecv(terms[u].status, 0));
      return false;
    }

    // The transmit side: a character being sent is out.
    method EndSend(u: nat) returns (raise: bool)
      requires Valid() && u < UNITS
      modifies terms
      ensures terms[..] == old(terms[..])[u := old(terms[u]).(status := Idled(old(terms[u].status)))]
      ensures raise <==> Xmit(old(terms[u].status)) == 1 && WantsXmit(old(terms[u].control))
    {
      if Xmit(terms[u].status) == 1 {
        terms[u] := terms[u].(status := SetXmit(terms[u].status, 0));
        return WantsXmit(terms[u].control);
      }
      return false;
    }
  }
}
