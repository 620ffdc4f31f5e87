/** Adapter lifecycle (src/coordinator.rs), and the protocol by which a reconfiguration stops an
    adapter, waits for the aggregator to acknowledge the flush, and restarts it. */
module Coordinator {
  import opened Zones
  import opened ZoneEvents
  import P = Projection
  import A = Aggregator

  // ---------------------------------------------------------------------------
  // The coordinator object
  // ---------------------------------------------------------------------------

  datatype Registered = Registered(enabled: bool, running: bool)

  /** The registry after these adapters were marked running or not; unregistered names are ignored. */
  function Marked(adapters: map<string, Registered>, names: seq<string>, running: bool): map<string, Registered> {
    map name | name in adapters :: if name in names then adapters[name].(running := running) else adapters[name]
  }

  /** Marking sets the running flag of the registered names among those given, and keeps everything else: who
      is registered, who is enabled, and every other flag. */
  lemma {:induction false} MarkedExactly(adapters: map<string, Registered>, names: seq<string>, running: bool,
                                         name: string)
    ensures var after := Marked(adapters, names, running);
      && (name in after <==> name in adapters)
      && (name in adapters ==>
            && after[name].enabled == adapters[name].enabled
            && (after[name].running <==> if name in names then running else adapters[name].running))
  {
  }

  /** Marking several at once is marking them one after another. */
  lemma {:induction false} MarkedInTurn(adapters: map<string, Registered>, first: seq<string>, second: seq<string>,
                                        running: bool)
    ensures Marked(Marked(adapters, first, running), second, running) == Marked(adapters, first + second, running)
  {
  }

  function Concat(parts: seq<seq<BusEvent>>): seq<BusEvent> {
    if parts == [] then [] else parts[0] + Concat(parts[1..])
  }

  class AdapterCoordinator {
    const bus: A.EventBus
    var adapters: map<string, Registered>
    /** Companion workers by the provider whose projection they share. */
    var companions: map<string, seq<string>>

    constructor (bus: A.EventBus)
      ensures this.bus == bus && adapters == map[] && companions == map[]
    {
      this.bus, adapters, companions := bus, map[], map[];
    }

    method Register(name: string, enabled: bool)
      modifies this`adapters
      ensures adapters == old(adapters)[name := Registered(enabled, false)]
    {
      adapters := adapters[name := Registered(enabled, false)];
    }

    method RegisterCompanion(provider: string, companion: string)
      modifies this`companions
      ensures companions == Joined(old(companions), provider, companion)
    {
      companions := companions[provider := CompanionsOf(companions, provider) + [companion]];
    }

    method SetRunning(name: string, running: bool)
      modifies this`adapters
      ensures adapters == Marked(old(adapters), [name], running)
    {
      if name in adapters {
        adapters := adapters[name := adapters[name].(running := running)];
      }
    }

    /** Stop every observer, each publishing what its own stop publishes, and only then retire the
        projection they share. */
    method StopAdaptersThenFlush(observers: seq<string>, projection: string, farewells: seq<seq<BusEvent>>)
      requires |farewells| == |observers|
      modifies this`adapters, bus
      ensures bus.log == old(bus.log) + Concat(farewells) + [AdapterStopping(projection)]
      ensures adapters == Marked(old(adapters), observers, false)
    {
      var i := 0;
      while i < |observers|
        invariant 0 <= i <= |observers| && adapters == old(adapters)
        invariant bus.log + Concat(farewells[i..]) == old(bus.log) + Concat(farewells)
      {
        assert farewells[i..][0] == farewells[i] && farewells[i..][1..] == farewells[i + 1..];
        bus.log := bus.log + farewells[i];
        i := i + 1;
      }
      assert farewells[|observers|..] == [] && bus.log == old(bus.log) + Concat(farewells);
      bus.Publish(AdapterStopping(projection));
      i := 0;
      while i < |observers|
        invariant 0 <= i <= |observers|
        invariant adapters == Marked(old(adapters), observers[..i], false)
        invariant bus.log == old(bus.log) + Concat(farewells) + [AdapterStopping(projection)]
      {
        SetRunning(observers[i], false);
        assert observers[..i + 1] == observers[..i] + [observers[i]];
        i := i + 1;
      }
      assert observers[..|observers|] == observers;
    }

    /** The adapter and its companions stop together. */
    method StopWithCompanions(adapter: string, projection: string, farewells: seq<seq<BusEvent>>)
      requires |farewells| == 1 + |CompanionsOf(companions, projection)|
      modifies this`adapters, bus
      ensures bus.log == old(bus.log) + Concat(farewells) + [AdapterStopping(projection)]
      ensures adapters == Marked(old(adapters), [adapter] + CompanionsOf(companions, projection), false)
    {
      StopAdaptersThenFlush([adapter] + CompanionsOf(companions, projection), projection, farewells);
    }

    /** Start the adapter, then its companions in order. `starts` says which starts succeed. When a
        companion fails, the adapter alone is stopped and its projection retired: companions that
        had already started keep running. */
    method StartWithCompanions(adapter: string, starts: set<string>, farewell: seq<BusEvent>) returns (ok: bool)
      modifies this`adapters, bus
      ensures ok <==> adapter in starts && forall c :: c in CompanionsOf(companions, adapter) ==> c in starts
      ensures ok ==> bus.log == old(bus.log)
      ensures ok ==> adapters == Marked(old(adapters), [adapter] + CompanionsOf(companions, adapter), true)
      ensures adapter !in starts ==> bus.log == old(bus.log) && adapters == old(adapters)
      ensures !ok && adapter in starts ==>
                var began := FirstFailing(CompanionsOf(companions, adapter), starts);
                && bus.log == old(bus.log) + farewell + [AdapterStopping(adapter)]
                && adapters == Marked(Marked(old(adapters), [adapter] + CompanionsOf(companions, adapter)[..began], true),
                                      [adapter], false)
    {
      if adapter !in starts {
        return false;
      }
      SetRunning(adapter, true);
      var i, all := 0, CompanionsOf(companions, adapter);
      while i < |all|
        invariant 0 <= i <= |all| && bus.log == old(bus.log)
        invariant forall j :: 0 <= j < i ==> all[j] in starts
        invariant adapters == Marked(old(adapters), [adapter] + all[..i], true)
      {
        if all[i] !in starts {
          FirstFailingIs(all, starts, i);
          assert Concat([farewell]) == farewell by {
            assert [farewell][1..] == [] && farewell + [] == farewell;
          }
          StopAdaptersThenFlush([adapter], adapter, [farewell]);
          return false;
        }
        SetRunning(all[i], true);
        assert [adapter] + all[..i + 1] == [adapter] + all[..i] + [all[i]];
        i := i + 1;
      }
      assert all[..|all|] == all;
      ok := true;
    }
  }

  function CompanionsOf(companions: map<string, seq<string>>, provider: string): seq<string> {
    if provider in companions then companions[provider] else []
  }

  /** The companions after one more is registered. */
  function Joined(companions: map<string, seq<string>>, provider: string, companion: string): map<string, seq<string>> {
    companions[provider := CompanionsOf(companions, provider) + [companion]]
  }

  datatype Registration = Registration(provider: string, companion: string)

  function JoinedAll(registrations: seq<Registration>): map<string, seq<string>> {
    if registrations == [] then map[]
    else
      var last := registrations[|registrations| - 1];
      Joined(JoinedAll(registrations[..|registrations| - 1]), last.provider, last.companion)
  }

  /** The companions registered for a provider, in the order of their registration. */
  function RegisteredFor(registrations: seq<Registration>, provider: string): seq<string> {
    if registrations == [] then []
    else (if registrations[0].provider == provider then [registrations[0].companion] else [])
         + RegisteredFor(registrations[1..], provider)
  }

  /** However registrations of several providers interleave, each provider's companions are those registered
      for it, in order. */
  lemma {:induction false} CompanionsExactly(registrations: seq<Registration>, provider: string)
    ensures CompanionsOf(JoinedAll(registrations), provider) == RegisteredFor(registrations, provider)
  {
    if registrations != [] {
      var before, last := registrations[..|registrations| - 1], registrations[|registrations| - 1];
      CompanionsExactly(before, provider);
      RegisteredLast(before, last, provider);
      assert registrations == before + [last];
    }
  }

  lemma {:induction false} RegisteredLast(registrations: seq<Registration>, r: Registration, provider: string)
    ensures RegisteredFor(registrations + [r], provider)
         == RegisteredFor(registrations, provider) + if r.provider == provider then [r.companion] else []
  {
    if registrations == [] {
      assert (registrations + [r])[1..] == [];
    } else {
      assert (registrations + [r])[1..] == registrations[1..] + [r];
      RegisteredLast(registrations[1..], r, provider);
    }
  }

  /** The first companion whose start fails, or their number. */
  function FirstFailing(names: seq<string>, starts: set<string>): (n: nat)
    ensures n <= |names|
    decreases names
  {
    if names == [] || names[0] !in starts then 0 else 1 + FirstFailing(names[1..], starts)
  }

  lemma {:induction false} FirstFailingIs(names: seq<string>, starts: set<string>, i: nat)
    requires i < |names| && names[i] !in starts && forall j :: 0 <= j < i ==> names[j] in starts
    ensures FirstFailing(names, starts) == i
    decreases names
  {
    if i > 0 {
      forall j | 0 <= j < i - 1 ensures names[1..][j] in starts {
        assert names[1..][j] == names[j + 1];
      }
      FirstFailingIs(names[1..], starts, i - 1);
    }
  }
}
