/** Which zones the lists hold and what they show of each (src/zone_list.rs), said of the zone ids and the
    switches themselves. */
module ZoneListing {
  import opened Zones
  import opened ZoneOrder

  /** Text precedes text if it ends inside the other, or has the smaller character where they first differ. */
  ghost predicate Precedes(a: string, b: string) {
    exists n :: 0 <= n <= |a| && n < |b| && a[..n] == b[..n] && (n == |a| || a[n] < b[n])
  }

  lemma {:induction false} TextBeforeExactly(a: string, b: string)
    ensures TextBefore(a, b) <==> Precedes(a, b)
  {
    hide Precedes;
    if b == [] {
      PrecedesNothing(a);
    } else if a == [] {
      NothingPrecedes(b);
    } else if a[0] == b[0] {
      TextBeforeExactly(a[1..], b[1..]);
      PrecedesShifts(a, b);
    } else {
      DifferAtOnce(a, b);
    }
  }

  lemma {:induction false} PrecedesNothing(a: string)
    ensures !Precedes(a, [])
  {
  }

  lemma {:induction false} NothingPrecedes(b: string)
    requires b != []
    ensures Precedes([], b)
  {
    assert b[..0] == [];
  }

  lemma {:induction false} DifferAtOnce(a: string, b: string)
    requires a != [] && b != [] && a[0] != b[0]
    ensures Precedes(a, b) <==> a[0] < b[0]
  {
    assert a[..0] == b[..0];
    forall n | 0 < n <= |a| && n < |b| ensures a[..n] != b[..n] {
      assert a[..n][0] != b[..n][0];
    }
  }

  lemma {:induction false} PrecedesShifts(a: string, b: string)
    requires a != [] && b != [] && a[0] == b[0]
    ensures Precedes(a, b) <==> Precedes(a[1..], b[1..])
  {
    forall n | 1 <= n <= |a| && n < |b| ensures a[..n] == b[..n] <==> a[1..][..n - 1] == b[1..][..n - 1] {
      assert a[..n] == [a[0]] + a[1..][..n - 1] && b[..n] == [b[0]] + b[1..][..n - 1];
      assert a[1..][..n - 1] == a[..n][1..] && b[1..][..n - 1] == b[..n][1..];
    }
    if Precedes(a, b) {
      var n :| 0 <= n <= |a| && n < |b| && a[..n] == b[..n] && (n == |a| || a[n] < b[n]);
      assert n >= 1 && a[1..][..n - 1] == b[1..][..n - 1];
    }
    if Precedes(a[1..], b[1..]) {
      var n :| 0 <= n <= |a[1..]| && n < |b[1..]| && a[1..][..n] == b[1..][..n]
               && (n == |a[1..]| || a[1..][n] < b[1..][n]);
      assert a[..n + 1] == b[..n + 1];
    }
  }

  /** The comparison: stored ids come first, by their last position in the stored order; the others follow by
      folded name, then by id. */
  lemma {:induction false} BeforeExactly(a: Zone, b: Zone, sorting: Sorting)
    ensures Before(a, b, sorting) <==>
            var order, x, y := sorting.order, sorting.lower(a.zoneName), sorting.lower(b.zoneName);
            if a.zoneId in order then
              b.zoneId !in order || exists j :: 0 <= j < |order| && order[j] == b.zoneId && a.zoneId !in order[j..]
            else
              b.zoneId !in order && (Precedes(x, y) || (x == y && Precedes(a.zoneId, b.zoneId)))
  {
    hide Precedes;
    var order := sorting.order;
    TextBeforeExactly(sorting.lower(a.zoneName), sorting.lower(b.zoneName));
    TextBeforeExactly(a.zoneId, b.zoneId);
    if a.zoneId in order && b.zoneId in order {
      var p, q := Rank(order, a.zoneId).value, Rank(order, b.zoneId).value;
      if p < q {
        assert a.zoneId !in order[q..];
      } else {
        forall j | 0 <= j < |order| && order[j] == b.zoneId ensures a.zoneId in order[j..] {
          assert j <= q;
          assert order[j..][p - j] == a.zoneId;
        }
      }
    }
  }

  /** The id is of a provider whose switch is off. Every other id is of an enabled adapter or of none. */
  predicate SwitchedOff(id: ZoneId, s: AdapterSettings) {
    || (!s.roon && OwnedBy("roon", id))
    || (!s.upnp && OwnedBy("upnp", id))
    || (!s.openhome && OwnedBy("openhome", id))
    || (!s.lms && (OwnedBy("lms", id) || OwnedBy("lms-cli", id)))
    || (!s.hqplayer && OwnedBy("hqplayer", id))
    || (!s.spotify && OwnedBy("spotify", id))
    || (!s.applemusic && OwnedBy("applemusic", id))
    || (!s.musicassistant && OwnedBy("musicassistant", id))
    || (!s.mqtt && OwnedBy("mqtt", id))
  }

  /** The prefix is the text before the first colon. */
  lemma {:induction false} PrefixExactly(id: ZoneId)
    ensures PrefixOf(id).None? <==> ':' !in id
    ensures PrefixOf(id).Some? ==> ':' !in PrefixOf(id).value && OwnedBy(PrefixOf(id).value, id)
  {
    if id != [] {
      assert id == [id[0]] + id[1..];
      if id[0] != ':' {
        PrefixExactly(id[1..]);
      }
    }
  }

  lemma {:induction false} PrefixOwns(id: ZoneId, adapter: string)
    requires ':' !in adapter
    ensures PrefixOf(id) == Some(adapter) <==> OwnedBy(adapter, id)
  {
    PrefixExactly(id);
    if OwnedBy(adapter, id) {
      assert id[|adapter|] == ':';
      OwnerIsUnique(PrefixOf(id).value, adapter, id);
    }
  }

  lemma {:induction false} SwitchNamesAreColonFree()
    ensures ':' !in "roon" && ':' !in "upnp" && ':' !in "openhome" && ':' !in "lms" && ':' !in "lms-cli"
    ensures ':' !in "hqplayer" && ':' !in "spotify" && ':' !in "applemusic" && ':' !in "musicassistant"
    ensures ':' !in "mqtt"
  {
  }

  /** The provider with this name has a switch, and it is off. */
  predicate Off(provider: string, s: AdapterSettings) {
    s.Toggle(provider) == Some(false)
  }

  lemma {:induction false} EnabledByPrefix(id: ZoneId, s: AdapterSettings)
    ensures AdapterEnabled(id, s) <==> (PrefixOf(id).Some? ==> !Off(PrefixOf(id).value, s))
  {
    hide PrefixOf;
  }

  lemma {:induction false} OffExactly(provider: string, s: AdapterSettings)
    ensures Off(provider, s) <==>
            || (!s.roon && provider == "roon")
            || (!s.upnp && provider == "upnp")
            || (!s.openhome && provider == "openhome")
            || (!s.lms && (provider == "lms" || provider == "lms-cli"))
            || (!s.hqplayer && provider == "hqplayer")
            || (!s.spotify && provider == "spotify")
            || (!s.applemusic && provider == "applemusic")
            || (!s.musicassistant && provider == "musicassistant")
            || (!s.mqtt && provider == "mqtt")
  {
  }

  lemma {:induction false} EnabledExactly(id: ZoneId, s: AdapterSettings)
    ensures AdapterEnabled(id, s) <==> !SwitchedOff(id, s)
  {
    hide PrefixOf, OwnedBy, Off, AdapterEnabled;
    SwitchNamesAreColonFree();
    EnabledByPrefix(id, s);
    forall name | ':' !in name ensures PrefixOf(id) == Some(name) <==> OwnedBy(name, id) {
      PrefixOwns(id, name);
    }
    if PrefixOf(id).Some? {
      OffExactly(PrefixOf(id).value, s);
    }
  }

  /** `z` is the zone `origin` under the name the user gave it, if any; nothing else of it changes. */
  predicate IsNamed(z: Zone, origin: Zone, names: map<ZoneId, string>) {
    && z == origin.(zoneName := z.zoneName)
    && z.zoneName == if origin.zoneId in names then names[origin.zoneId] else origin.zoneName
  }

  /** The management list holds exactly the zones whose adapter is not switched off, and the visible list those
      of them that are not hidden, each under the user's name for it. */
  lemma {:induction false} ListsHoldExactly(zones: seq<Zone>, s: Settings, z: Zone)
    requires DistinctIds(zones)
    ensures z in Manageable(zones, s)
            <==> exists origin :: origin in zones && !SwitchedOff(origin.zoneId, s.adapters) && IsNamed(z, origin, s.names)
    ensures z in Visible(zones, s) <==> z in Manageable(zones, s) && z.zoneId !in s.hidden
  {
    hide Ordered, SwitchedOff, AdapterEnabled, Listable;
    ManageableIsDistinct(zones, s);
    ListableMembers(zones, s, z);
    KeepMembers(Manageable(zones, s), Shown(s.hidden));
    assert z in Listable(zones, s) <==> z in Manageable(zones, s);
    forall origin | origin in zones
      ensures AdapterEnabled(origin.zoneId, s.adapters) <==> !SwitchedOff(origin.zoneId, s.adapters)
      ensures WithCustomName(origin, s.names) == z <==> IsNamed(z, origin, s.names)
    {
      EnabledExactly(origin.zoneId, s.adapters);
    }
  }

  /** The same of ids: with which ids a list is filled. */
  lemma {:induction false} ListedIdsExactly(zones: seq<Zone>, s: Settings, id: ZoneId)
    requires DistinctIds(zones)
    ensures id in IdsOf(Manageable(zones, s)) <==> id in IdsOf(zones) && !SwitchedOff(id, s.adapters)
    ensures id in IdsOf(Visible(zones, s)) <==> id in IdsOf(Manageable(zones, s)) && id !in s.hidden
  {
    hide SwitchedOff, Manageable, Visible;
    IdsAreOfMembers(zones, id);
    IdsAreOfMembers(Manageable(zones, s), id);
    IdsAreOfMembers(Visible(zones, s), id);
    forall z ensures z in Manageable(zones, s)
      <==> exists origin :: origin in zones && !SwitchedOff(origin.zoneId, s.adapters) && IsNamed(z, origin, s.names)
    {
      ListsHoldExactly(zones, s, z);
    }
    forall z ensures z in Visible(zones, s) <==> z in Manageable(zones, s) && z.zoneId !in s.hidden {
      ListsHoldExactly(zones, s, z);
    }
    if origin :| origin in zones && origin.zoneId == id && !SwitchedOff(id, s.adapters) {
      var z := origin.(zoneName := if id in s.names then s.names[id] else origin.zoneName);
      assert IsNamed(z, origin, s.names);
    }
  }

  lemma {:induction false} IdsAreOfMembers(zones: seq<Zone>, id: ZoneId)
    ensures id in IdsOf(zones) <==> exists z :: z in zones && z.zoneId == id
  {
    if id in IdsOf(zones) {
      var i :| 0 <= i < |zones| && IdsOf(zones)[i] == id;
      assert zones[i] in zones;
    }
    if z :| z in zones && z.zoneId == id {
      var i :| 0 <= i < |zones| && zones[i] == z;
      assert IdsOf(zones)[i] == id;
    }
  }

  /** An adapter's zones are listed exactly while its own switch is on; those of an adapter without a switch
      always are. */
  lemma {:induction false} SwitchesAreTheirOwn(adapter: string, raw: string, s: AdapterSettings)
    requires ':' !in adapter
    ensures SwitchedOff(Prefixed(adapter, raw), s) <==>
            || (!s.roon && adapter == "roon")
            || (!s.upnp && adapter == "upnp")
            || (!s.openhome && adapter == "openhome")
            || (!s.lms && (adapter == "lms" || adapter == "lms-cli"))
            || (!s.hqplayer && adapter == "hqplayer")
            || (!s.spotify && adapter == "spotify")
            || (!s.applemusic && adapter == "applemusic")
            || (!s.musicassistant && adapter == "musicassistant")
            || (!s.mqtt && adapter == "mqtt")
  {
    hide OwnedBy, Prefixed;
    SwitchNamesAreColonFree();
    forall other | ':' !in other ensures OwnedBy(other, Prefixed(adapter, raw)) <==> adapter == other {
      PrefixedIsOwned(adapter, raw);
      if OwnedBy(other, Prefixed(adapter, raw)) {
        OwnerIsUnique(other, adapter, Prefixed(adapter, raw));
      }
    }
  }

  /** Ids without an adapter are always listed. */
  lemma {:induction false} BareIdsAreListed(id: ZoneId, s: AdapterSettings)
    requires ':' !in id
    ensures !SwitchedOff(id, s)
  {
    hide OwnedBy;
    forall adapter: string ensures !OwnedBy(adapter, id) {
      OwnedHasColon(adapter, id);
    }
  }

  lemma {:induction false} OwnedHasColon(adapter: string, id: ZoneId)
    ensures OwnedBy(adapter, id) ==> ':' in id
  {
    if OwnedBy(adapter, id) {
      assert id[|adapter|] == ':';
    }
  }
}
