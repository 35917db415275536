/** The weather provider and its observers of Behavioral/Observer/observer.cpp.

    `WeatherProvider` (an `Observable`) keeps the list of registered observers
    and notifies each of them in turn; the two observers, the information
    screen and the smart-home control, are one class here with a kind tag, so
    that the provider's list can hold both.  Each observer's state is its
    window and heating switches and the lines its screen has shown. */
module WeatherObserver {

  /** The weather a notification carries: temperature in degrees Celsius and
      the sky status. */
  datatype Reading = Reading(temp: int, sky: string)

  /** The smart-home control's two switches. */
  datatype Home = Home(windowsOpen: bool, heatingOn: bool)

  /** `SmartHomeControl::update` for its own weather: close the windows when they
      are open and it rains, then at 25 degrees or more open them (unless just
      closed) and stop heating, below 21 close them, and below 16 heat. */
  function HomeUpdate(h: Home, r: Reading): (n: Home)
    ensures r.temp >= 25 ==> !n.heatingOn && n.windowsOpen == !(h.windowsOpen && r.sky == "raining")
    ensures r.temp < 21 ==> !n.windowsOpen && n.heatingOn == (h.heatingOn || r.temp < 16)
    ensures 21 <= r.temp < 25 ==>
      n.heatingOn == h.heatingOn && n.windowsOpen == (h.windowsOpen && r.sky != "raining")
  {
    var closeTheWindows := h.windowsOpen && r.sky == "raining";
    var h1 := if closeTheWindows then h.(windowsOpen := false) else h;
    if r.temp >= 25 then
      Home(!closeTheWindows || h1.windowsOpen, false)
    else if r.temp < 21 then
      Home(false, h1.heatingOn || r.temp < 16)
    else
      h1
  }

  /** Below 25 degrees a second notification with the same weather changes nothing. */
  lemma HomeUpdateSettles(h: Home, r: Reading)
    requires r.temp < 25
    ensures HomeUpdate(HomeUpdate(h, r), r) == HomeUpdate(h, r)
  {
  }

  /** From 25 degrees on, in the rain, each notification flips the windows: open
      windows are closed, and closed ones are opened again. */
  lemma HomeUpdateTogglesInRain(h: Home, r: Reading)
    requires r.temp >= 25 && r.sky == "raining"
    ensures HomeUpdate(h, r).windowsOpen == !h.windowsOpen
    ensures HomeUpdate(HomeUpdate(h, r), r) == h.(heatingOn := false)
  {
  }

  datatype Kind = InformationScreen | SmartHomeControl

  /** What an observer holds: its switches (used by the home control) and the
      readings its screen has shown (used by the information screen). */
  datatype ObserverState = ObserverState(home: Home, shown: seq<Reading>)

  /** One `update` from the observer's own weather. */
  function Notified(kind: Kind, s: ObserverState, r: Reading): (n: ObserverState)
    ensures kind == InformationScreen ==> n.home == s.home && n.shown == s.shown + [r]
    ensures kind == SmartHomeControl ==> n.home == HomeUpdate(s.home, r) && n.shown == s.shown
  {
    match kind
    case InformationScreen => s.(shown := s.shown + [r])
    case SmartHomeControl => s.(home := HomeUpdate(s.home, r))
  }

  /** k updates with the same reading. */
  function NotifiedTimes(kind: Kind, s: ObserverState, r: Reading, k: nat): ObserverState
    decreases k
  {
    if k == 0 then s else Notified(kind, NotifiedTimes(kind, s, r, k - 1), r)
  }

  /** An observer registered k times shows the reading k times. */
  lemma {:induction false} ScreenShowsEachTime(s: ObserverState, r: Reading, k: nat)
    ensures NotifiedTimes(InformationScreen, s, r, k).shown == s.shown + seq(k, _ => r)
    ensures NotifiedTimes(InformationScreen, s, r, k).home == s.home
    decreases k
  {
    if k > 0 {
      ScreenShowsEachTime(s, r, k - 1);
      assert s.shown + seq(k - 1, _ => r) + [r] == s.shown + seq(k, _ => r);
    }
  }

  /** `std::erase(observers, obs)`: every occurrence of x removed, the rest in order. */
  function Without(s: seq<Observer>, x: Observer): (r: seq<Observer>)
    ensures x !in r && |r| <= |s|
    ensures forall y :: y in r ==> y in s
    ensures forall y :: y in s && y != x ==> multiset(r)[y] == multiset(s)[y]
    decreases |s|
  {
    if s == [] then []
    else
      assert s == s[..|s| - 1] + [s[|s| - 1]];
      if s[|s| - 1] == x then Without(s[..|s| - 1], x)
      else Without(s[..|s| - 1], x) + [s[|s| - 1]]
  }

  /** Removing an observer that is not registered changes nothing. */
  lemma {:induction false} WithoutAbsent(s: seq<Observer>, x: Observer)
    requires x !in s
    ensures Without(s, x) == s
    decreases |s|
  {
    if s != [] {
      WithoutAbsent(s[..|s| - 1], x);
      assert s[..|s| - 1] + [s[|s| - 1]] == s;
    }
  }

  /** Removing an observer right after adding it leaves the list it had before,
      minus any earlier registrations of the same observer. */
  lemma AddThenRemove(s: seq<Observer>, x: Observer)
    ensures Without(s + [x], x) == Without(s, x)
    ensures x !in s ==> Without(s + [x], x) == s
  {
    assert (s + [x])[..|s|] == s;
    if x !in s {
      WithoutAbsent(s, x);
    }
  }

  /** Without keeps the order of the remaining observers: it distributes over
      concatenation. */
  lemma {:induction false} WithoutAppend(s: seq<Observer>, t: seq<Observer>, x: Observer)
    ensures Without(s + t, x) == Without(s, x) + Without(t, x)
    decreases |t|
  {
    if t == [] {
      assert s + t == s;
    } else {
      var u := s + t;
      assert u[..|u| - 1] == s + t[..|t| - 1];
      WithoutAppend(s, t[..|t| - 1], x);
    }
  }

  class WeatherProvider {
    /** `Observable::observers`, in registration order. */
    var observers: seq<Observer>
    var tempInCelsius: int
    var skyStatus: string

    /** No observers yet; the weather itself is not initialised. */
    constructor ()
      ensures observers == []
    {
      observers := [];
    }

    function Weather(): Reading
      reads this
    {
      Reading(tempInCelsius, skyStatus)
    }

    /** `addObserver`: appended, even when already registered. */
    method AddObserver(o: Observer)
      modifies this
      ensures observers == old(observers) + [o] && Weather() == old(Weather())
    {
      observers := observers + [o];
    }

    /** `removeObserver`: every registration of o goes. */
    method RemoveObserver(o: Observer)
      modifies this
      ensures observers == Without(old(observers), o) && Weather() == old(Weather())
    {
      observers := Without(observers, o);
    }

    /** `notify`: one observer, whether registered or not. */
    method Notify(o: Observer)
      modifies o
      ensures o.State() == if o.weather == this then Notified(o.kind, old(o.State()), Weather()) else old(o.State())
    {
      o.Update(this);
    }

    /** `notifyAll`: each registered observer in registration order, so an observer
        registered k times is updated k times; `calls` is that sequence. */
    method NotifyAll() returns (ghost calls: seq<Observer>)
      modifies set o | o in observers
      ensures calls == observers
      ensures forall o :: o in observers ==>
        o.State() == if o.weather == this
                     then NotifiedTimes(o.kind, old(o.State()), Weather(), multiset(observers)[o])
                     else old(o.State())
    {
      calls := [];
      var i := 0;
      while i < |observers|
        invariant i <= |observers| && calls == observers[..i]
        invariant forall o :: o in observers ==>
          o.State() == if o.weather == this
                       then NotifiedTimes(o.kind, old(o.State()), Weather(), multiset(observers[..i])[o])
                       else old(o.State())
      {
        var o := observers[i];
        assert observers[..i + 1] == observers[..i] + [o];
        o.Update(this);
        calls := calls + [o];
        i := i + 1;
      }
      assert observers[..i] == observers;
    }

    /** `setWeather`: the weather is stored first, then everyone is notified. */
    method SetWeather(temp: int, sky: string) returns (ghost calls: seq<Observer>)
      modifies this, set o | o in observers
      ensures Weather() == Reading(temp, sky) && observers == old(observers) && calls == observers
      ensures forall o :: o in observers ==>
        o.State() == if o.weather == this
                     then NotifiedTimes(o.kind, old(o.State()), Reading(temp, sky), multiset(observers)[o])
                     else old(o.State())
    {
      tempInCelsius := temp;
      skyStatus := sky;
      calls := NotifyAll();
    }
  }

  /** An `InformationScreen` or a `SmartHomeControl`, bound to one weather provider. */
  class Observer {
    const kind: Kind
    const weather: WeatherProvider
    var windowsOpen: bool
    var heatingOn: bool
    /** The readings `printWeatherNow` has written, oldest first. */
    var shown: seq<Reading>

    function State(): ObserverState
      reads this
    {
      ObserverState(Home(windowsOpen, heatingOn), shown)
    }

    /** The constructor registers the new observer with its weather. */
    constructor (kind: Kind, weather: WeatherProvider)
      modifies weather
      ensures this.kind == kind && this.weather == weather
      ensures State() == ObserverState(Home(false, false), [])
      ensures weather.observers == old(weather.observers) + [this]
      ensures weather.Weather() == old(weather.Weather())
    {
      this.kind := kind;
      this.weather := weather;
      windowsOpen := false;
      heatingOn := false;
      shown := [];
      new;
      weather.AddObserver(this);
    }

    /** The destructor: unregisters from its weather. */
    method Detach()
      modifies weather
      ensures weather.observers == Without(old(weather.observers), this)
      ensures weather.Weather() == old(weather.Weather())
    {
      weather.RemoveObserver(this);
    }

    /** `update`: a notification from any other observable is ignored. */
    method Update(from: WeatherProvider)
      modifies this
      ensures State() == if from == weather then Notified(kind, old(State()), weather.Weather()) else old(State())
    {
      if from != weather {
        return;
      }
      var temp := weather.tempInCelsius;
      var sky := weather.skyStatus;
      if kind == InformationScreen {
        shown := shown + [Reading(temp, sky)];
        return;
      }
      var closeTheWindows := windowsOpen && sky == "raining";
      if closeTheWindows {
        windowsOpen := false;
      }
      if temp >= 25 {
        if !closeTheWindows {
          windowsOpen := true;
        }
        if heatingOn {
          heatingOn := false;
        }
      } else if temp < 21 {
        if windowsOpen {
          windowsOpen := false;
        }
        if temp < 16 {
          if !heatingOn {
            heatingOn := true;
          }
        }
      }
    }
  }
}
