/** The sockets, the adapter and the phone charger of Structural/Adapter/adapter.cpp.

    Sockets hold only constant fields, so they are values: a home socket, the
    adapter (a home-socket face over a private industrial socket) and the
    industrial socket itself.  The phone charger changes its supply, phone and
    `broken` fields in place, so it is a class whose methods are proved against
    the transition functions PlugInEffect and PlugPhoneEffect; whether power
    reached the phone is returned instead of printed. */
module PowerAdapter {
  import opened Common

  datatype Status = Disconnected | Connected

  /** `EuropeanIndustrialeSocket`: the monophase and triphase connection, earth
      and voltage. */
  datatype IndustrialSocket = IndustrialSocket(monophase: Status, triphase: Status, earth: Status, volt: u16)

  /** The constructor: `triphase` decides the triphase status. */
  function MakeIndustrial(connected: Status, earth: Status, voltage: u16, triphase: bool): (s: IndustrialSocket)
    ensures s.monophase == connected && s.earth == earth && s.volt == voltage
    ensures s.triphase == Connected <==> triphase
  {
    IndustrialSocket(connected, if triphase then Connected else Disconnected, earth, voltage)
  }

  /** `phase1` (and `neutral`): connected when triphase is, otherwise the
      monophase status. */
  function Phase1(s: IndustrialSocket): (st: Status)
    ensures st == Connected <==> s.triphase == Connected || s.monophase == Connected
  {
    if s.triphase == Connected then Connected else s.monophase
  }

  /** `phase2` and `phase3`: the triphase status. */
  function Phase23(s: IndustrialSocket): (st: Status)
    ensures st == s.triphase
  {
    s.triphase
  }

  /** Anything with the home-socket interface: the socket itself, or the adapter
      built on an industrial socket. */
  datatype HomeSocket =
    | EuropeanHomeSocket(connected: Status, earth: Status)
    | Adapter(inner: IndustrialSocket)

  /** `Adapter(connected)`: a monophase industrial socket at 230 V, earth not connected. */
  function MakeAdapter(connected: Status): (a: HomeSocket)
    ensures a.Adapter? && a.inner.monophase == connected && a.inner.triphase == Disconnected
    ensures a.inner.volt == 230 && a.inner.earth == Disconnected
  {
    Adapter(MakeIndustrial(connected, Disconnected, 230, false))
  }

  /** `voltage()`: 230 at home; the adapter casts the industrial voltage to
      `uint8_t`, keeping its low eight bits. */
  function Voltage(s: HomeSocket): (v: u8)
    ensures s.EuropeanHomeSocket? ==> v == 230
    ensures s.Adapter? && s.inner.volt < TWO_8 ==> v == s.inner.volt
  {
    match s
    case EuropeanHomeSocket(_, _) => 230
    case Adapter(inner) => inner.volt % TWO_8
  }

  /** `phase()`: the home socket's `connected`, or the adapter's `phase1`. */
  function Phase(s: HomeSocket): Status
  {
    match s
    case EuropeanHomeSocket(c, _) => c
    case Adapter(inner) => Phase1(inner)
  }

  /** `neutral()`: the same status as `phase()` for both kinds. */
  function Neutral(s: HomeSocket): (st: Status)
    ensures st == Phase(s)
  {
    match s
    case EuropeanHomeSocket(c, _) => c
    case Adapter(inner) => if inner.triphase == Connected then Connected else inner.monophase
  }

  /** An adapter reads like a home socket: 230 V, and phase and neutral are the
      status it was built with. */
  lemma AdapterLooksLikeHome(connected: Status)
    ensures Voltage(MakeAdapter(connected)) == Voltage(EuropeanHomeSocket(connected, Disconnected))
    ensures Phase(MakeAdapter(connected)) == connected && Neutral(MakeAdapter(connected)) == connected
  {
  }

  /** The cast hides a voltage of 256 V or more: a 380 V socket seen through it
      reads 124 V, inside the charger's accepted range. */
  lemma CastWrapsVoltage()
    ensures Voltage(Adapter(MakeIndustrial(Connected, Connected, 380, true))) == 124
  {
  }

  // ---------------------------------------------------------------- the charger

  /** A `Phone`; it holds nothing. */
  datatype Phone = Phone

  /** What the charger holds: its supply, its phone and whether it exploded. */
  datatype Charger = Charger(power: Option<HomeSocket>, phone: Option<Phone>, broken: bool)

  /** `charge()`: power flows only into an unbroken charger with a phone and a
      supply whose phase and neutral are both connected. */
  predicate Delivers(c: Charger)
  {
    && !c.broken && c.phone.Some? && c.power.Some?
    && Phase(c.power.value) == Connected && Neutral(c.power.value) == Connected
  }

  /** The new charger state after a step, and whether it charged the phone. */
  datatype Outcome = Outcome(charger: Charger, charged: bool)

  /** `plugIn`: below 100 V nothing happens; above 240 V the charger breaks and
      keeps its old supply; otherwise the supply is taken and charging tried. */
  function PlugInEffect(c: Charger, supply: HomeSocket): (r: Outcome)
    ensures Voltage(supply) < 100 ==> r == Outcome(c, false)
    ensures Voltage(supply) > 240 ==> r == Outcome(c.(broken := true), false)
    ensures 100 <= Voltage(supply) <= 240 ==>
      r.charger == c.(power := Some(supply)) && (r.charged <==> Delivers(r.charger))
  {
    if Voltage(supply) < 100 then Outcome(c, false)
    else if Voltage(supply) > 240 then Outcome(c.(broken := true), false)
    else
      var next := c.(power := Some(supply));
      Outcome(next, Delivers(next))
  }

  /** `plugPhone`: the phone (possibly none) is taken and charging tried. */
  function PlugPhoneEffect(c: Charger, p: Option<Phone>): (r: Outcome)
    ensures r.charger == c.(phone := p)
    ensures r.charged <==> Delivers(r.charger)
  {
    var next := c.(phone := p);
    Outcome(next, Delivers(next))
  }

  datatype Op = PlugIn(supply: HomeSocket) | PlugPhone(p: Option<Phone>)

  function Step(c: Charger, op: Op): Outcome
  {
    match op
    case PlugIn(s) => PlugInEffect(c, s)
    case PlugPhone(p) => PlugPhoneEffect(c, p)
  }

  /** Applies the operations in order; the result lists, per operation, whether
      the phone got power. */
  function Run(c: Charger, ops: seq<Op>): (r: (Charger, seq<bool>))
    ensures |r.1| == |ops|
    decreases |ops|
  {
    if ops == [] then (c, [])
    else
      var o := Step(c, ops[0]);
      var rest := Run(o.charger, ops[1..]);
      (rest.0, [o.charged] + rest.1)
  }

  /** `broken` is never cleared: after an over-voltage plug-in no later operation
      delivers power. */
  lemma {:induction false} BrokenForever(c: Charger, ops: seq<Op>)
    requires c.broken
    ensures Run(c, ops).0.broken
    ensures forall i :: 0 <= i < |ops| ==> !Run(c, ops).1[i]
    decreases |ops|
  {
    if ops != [] {
      var o := Step(c, ops[0]);
      assert o.charger.broken && !o.charged;
      BrokenForever(o.charger, ops[1..]);
    }
  }

  /** The demo's order, supply first and phone second, charges from a connected
      home socket and from a connected adapter alike. */
  lemma SupplyThenPhoneCharges(supply: HomeSocket)
    requires supply == EuropeanHomeSocket(Connected, Connected) || supply == MakeAdapter(Connected)
    ensures var r := Run(Charger(None, None, false), [PlugIn(supply), PlugPhone(Some(Phone))]);
      r.1 == [false, true] && r.0 == Charger(Some(supply), Some(Phone), false)
  {
    var first := PlugInEffect(Charger(None, None, false), supply);
    var second := PlugPhoneEffect(first.charger, Some(Phone));
    assert Run(second.charger, []) == (second.charger, []);
    assert [PlugIn(supply), PlugPhone(Some(Phone))][1..] == [PlugPhone(Some(Phone))];
    assert [PlugPhone(Some(Phone))][1..] == [];
    assert Step(first.charger, PlugPhone(Some(Phone))) == second;
    assert second.charged;
    assert [true] + [] == [true];
    assert Run(first.charger, [PlugPhone(Some(Phone))]) == (second.charger, [true]);
  }

  class PhoneCharger {
    var power: Option<HomeSocket>
    var phone: Option<Phone>
    var broken: bool

    function State(): Charger
      reads this
    {
      Charger(power, phone, broken)
    }

    constructor ()
      ensures State() == Charger(None, None, false)
    {
      power := None;
      phone := None;
      broken := false;
    }

    method PlugIn(supply: HomeSocket) returns (charged: bool)
      modifies this
      ensures Outcome(State(), charged) == PlugInEffect(old(State()), supply)
    {
      if Voltage(supply) < 100 {
        return false;
      }
      if Voltage(supply) > 240 {
        broken := true;
        return false;
      }
      power := Some(supply);
      charged := Charge();
    }

    method PlugPhone(p: Option<Phone>) returns (charged: bool)
      modifies this
      ensures Outcome(State(), charged) == PlugPhoneEffect(old(State()), p)
    {
      phone := p;
      charged := Charge();
    }

    /** `charge()`: reports whether the supply delivered power to the phone. */
    method Charge() returns (charged: bool)
      ensures charged <==> Delivers(State())
    {
      charged := false;
      if !broken {
        if phone.Some? && power.Some?
          && Phase(power.value) == Connected && Neutral(power.value) == Connected
        {
          charged := true;
        }
      }
    }
  }
}
