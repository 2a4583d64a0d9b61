/**
 What a caller of a terminal gets, in the words it packs and unpacks with the macros of usloss.h.
 */
module TermGuarantees {
  import opened Terminal

  /* ---- The macros ------------------------------------------------------------------------- */

  function StatChar(status: bv32): bv32 { (status >> 8) & 0xff }

  function StatXmit(status: bv32): bv32 { (status >> 2) & 0x3 }

  function StatRecv(status: bv32): bv32 { status & 0x3 }

  function CtrlChar(ctrl: bv32, ch: bv32): bv32 { ctrl | ((ch & 0xff) << 8) }

  function CtrlXmitInt(ctrl: bv32): bv32 { ctrl | 0x4 }

  function CtrlRecvInt(ctrl: bv32): bv32 { ctrl | 0x2 }

  function CtrlXmitChar(ctrl: bv32): bv32 { ctrl | 0x1 }

  // A control word: a character, to be sent or not, and the interrupts wanted.
  datatype Order = Order(ch: bv32, send: bool, xmitInt: bool, recvInt: bool)

  function Word(o: Order): bv32 {
    var w := CtrlChar(0, o.ch);
    var x := if o.send then CtrlXmitChar(w) else w;
    var y := if o.xmitInt then CtrlXmitInt(x) else x;
    if o.recvInt then CtrlRecvInt(y) else y
  }

  lemma WordFields(o: Order)
    ensures Character(Word(o)) == o.ch & 0xff
    ensures Sends(Word(o)) <==> o.send
    ensures WantsXmit(Word(o)) <==> o.xmitInt
    ensures WantsRecv(Word(o)) <==> o.recvInt
  {
  }

  /* ---- The calls -------------------------------------------------------------------------- */

  // A terminal that has been initialised, whatever has happened to it since.
  ghost predicate Live(d: Terms) {
    exists i :: AllStand(d, i)
  }

  lemma LiveKept(d: Terms, op: Op)
    requires Live(d)
    ensures Live(Step(d, op).0)
  {
    var i :| AllStand(d, i);
    StepStands(d, i, op);
  }

  lemma LiveStatus(d: Terms, u: nat)
    requires Live(d) && u < 4
    ensures StatXmit(d.units[u].status) <= 1 && StatRecv(d.units[u].status) <= 1
  {
    var i :| AllStand(d, i);
    PackFields(i.units[u]);
  }

  // An order with the send bit writes its character, and no other, if the transmitter is ready; it is
  // answered with DEV_BUSY if not. Without that bit nothing is written.
  lemma OrderAnswered(d: Terms, u: nat, o: Order)
    requires Live(d) && u < 4
    ensures
      var was, r := d.units[u], Step(d, Control(u, Word(o)));
      var now, ready := r.0.units[u], StatXmit(was.status) == 0;
      && r.1 == Code(if o.send && !ready then 1 else 0)
      && now.output == was.output + (if o.send && ready then [o.ch & 0xff] else [])
      && StatXmit(now.status) == (if o.send then 1 else StatXmit(was.status))
      && StatRecv(now.status) == StatRecv(was.status) && StatChar(now.status) == StatChar(was.status)
      && now.control == Word(o)
      && r.0 == d.(units := d.units[u := now])
  {
    WordFields(o);
    LiveStatus(d, u);
    XmitField(d.units[u].status, 1);
  }

  function Turn(last: int): nat
    requires -1 <= last < 4
  {
    if last == 3 then 0 else last + 1
  }

  predicate Arrives(input: Incoming) {
    input.Ch? && input.c & 0xff != 0x40
  }

  // A poll is the turn of the next unit. A character other than '@' is put into its status, the
  // transmitter becomes ready, and the interrupts its last order wants are raised for it.
  lemma PollTells(d: Terms, u: nat, o: Order, input: Incoming)
    requires Live(d) && u == Turn(d.last) && d.units[u].control == Word(o)
    ensures
      var was, r := d.units[u], Step(d, Tick(input));
      var now := r.0.units[u];
      && r.0.last == u && r.0.units == d.units[u := now]
      && StatRecv(now.status) == (if Arrives(input) then 1 else 0)
      && StatChar(now.status) == (if Arrives(input) then input.c & 0xff else StatChar(was.status))
      && StatXmit(now.status) == 0
      && now.output == was.output && now.control == was.control
      && r.1 == Raised(if (Arrives(input) && o.recvInt) || (StatXmit(was.status) == 1 && o.xmitInt) then u else -1)
  {
    WordFields(o);
    LiveStatus(d, u);
    PollStatus(d.units[u].status, input);
  }

  lemma PollStatus(status: bv32, input: Incoming)
    requires StatXmit(status) <= 1
    ensures
      var received := Received(status, input);
      var now := Idled(received);
      && StatRecv(now) == (if Arrives(input) then 1 else 0)
      && StatChar(now) == (if Arrives(input) then input.c & 0xff else StatChar(status))
      && StatXmit(now) == 0 && Xmit(received) == StatXmit(status)
  {
    ReceivedFields(status, input);
    IdledFields(Received(status, input));
  }

  lemma ReceivedFields(status: bv32, input: Incoming)
    ensures
      var r := Received(status, input);
      && StatRecv(r) == (if Arrives(input) then 1 else 0)
      && StatChar(r) == (if Arrives(input) then input.c & 0xff else StatChar(status))
      && StatXmit(r) == StatXmit(status)
  {
    if Arrives(input) {
      CharField(status, input.c);
      RecvField(SetChar(status, input.c), 1);
    } else {
      RecvField(status, 0);
    }
  }

  lemma IdledFields(status: bv32)
    requires StatXmit(status) <= 1
    ensures
      var r := Idled(status);
      StatRecv(r) == StatRecv(status) && StatChar(r) == StatChar(status) && StatXmit(r) == 0
  {
    XmitField(status, 0);
    assert StatXmit(status) == 0 || StatXmit(status) == 1;
  }

  // A query shows the status word, and leaves the receiver empty and the rest as it was.
  lemma QueryShows(d: Terms, u: nat)
    requires Live(d) && u < 4
    ensures
      var was, r := d.units[u], Step(d, GetStatus(u));
      var now := r.0.units[u];
      && r.1 == Terminal.Obs.Word(was.status)
      && StatRecv(now.status) == 0 && StatXmit(now.status) == StatXmit(was.status)
      && StatChar(now.status) == StatChar(was.status)
      && now.output == was.output && now.control == was.control && r.0 == d.(units := d.units[u := now])
  {
    RecvField(d.units[u].status, 0);
  }

  lemma NoSuchUnit(d: Terms, u: int, req: bv32)
    requires Laid(d) && !(0 <= u < 4)
    ensures Step(d, Control(u, req)) == (d, Code(2)) && Step(d, GetStatus(u)) == (d, Code(2))
  {
  }

  // A character that is sent is out, and the transmitter ready for another, at the unit's next turn;
  // the interrupt comes then if it was asked for.
  lemma SendThenReady(d: Terms, o: Order, input: Incoming)
    requires Live(d) && o.send && StatXmit(d.units[Turn(d.last)].status) == 0
    ensures
      var u := Turn(d.last);
      var sent := Step(d, Control(u, Word(o))).0;
      var r := Step(sent, Tick(input));
      && r.0.units[u].output == d.units[u].output + [o.ch & 0xff]
      && StatXmit(sent.units[u].status) == 1 && StatXmit(r.0.units[u].status) == 0
      && (r.1 == Raised(u) <==> o.xmitInt || (o.recvInt && Arrives(input)))
  {
    var u := Turn(d.last);
    OrderAnswered(d, u, o);
    LiveKept(d, Control(u, Word(o)));
    PollTells(Step(d, Control(u, Word(o))).0, u, o, input);
  }

  lemma Initially()
    ensures Live(INITIAL) && INITIAL.last == -1
    ensures forall u :: 0 <= u < 4 ==> INITIAL.units[u] == Unit(0, 0, [])
  {
    InitialStands();
  }
}
