/** The zone record shared by every adapter, and the events carried by the broadcast bus
    (src/bus/events.rs). Floating-point fields are modelled as reals. */
module Zones {

  datatype Option<+T> = None | Some(value: T) {
    function GetOr(default: T): T {
      match this
      case Some(v) => v
      case None => default
    }
  }

  type ZoneId = string

  datatype PlaybackState = Playing | Paused | Stopped | Loading | Buffering | Unknown

  datatype RepeatMode = RepeatOff | RepeatOne | RepeatAll

  datatype VolumeScale = Decibel | Percentage | Linear | UnknownScale

  datatype VolumeControl = VolumeControl(
    value: real,
    min: real,
    max: real,
    step: real,
    isMuted: bool,
    scale: VolumeScale,
    outputId: Option<string>)

  /** Format details of a track; carried around, never inspected. */
  datatype TrackMetadata = TrackMetadata(
    format: Option<string>,
    sampleRate: Option<nat>,
    bitDepth: Option<nat>,
    bitrate: Option<nat>,
    genre: Option<string>,
    composer: Option<string>,
    trackNumber: Option<nat>,
    discNumber: Option<nat>)

  datatype NowPlaying = NowPlaying(
    title: string,
    artist: string,
    album: string,
    imageKey: Option<string>,
    seekPosition: Option<real>,
    duration: Option<real>,
    metadata: Option<TrackMetadata>,
    repeatMode: Option<RepeatMode>,
    shuffle: Option<bool>)

  datatype Zone = Zone(
    zoneId: ZoneId,
    zoneName: string,
    state: PlaybackState,
    volumeControl: Option<VolumeControl>,
    nowPlaying: Option<NowPlaying>,
    source: string,
    isControllable: bool,
    isSeekable: bool,
    lastUpdated: nat,
    isPlayAllowed: bool,
    isPauseAllowed: bool,
    isNextAllowed: bool,
    isPreviousAllowed: bool)

  /** The bus events the aggregator, its producers and the coordinator exchange. `OtherEvent`
      stands for every variant the aggregator ignores. */
  datatype BusEvent =
    | ZoneDiscovered(zone: Zone)
    | ZoneUpdated(zoneId: ZoneId, displayName: string, stateText: string)
    | ZoneRemoved(zoneId: ZoneId)
    | NowPlayingChanged(zoneId: ZoneId, title: Option<string>, artist: Option<string>,
                        album: Option<string>, imageKey: Option<string>)
    | PlaybackModesChanged(zoneId: ZoneId, repeatMode: Option<RepeatMode>, shuffle: Option<bool>)
    | SeekPositionChanged(zoneId: ZoneId, position: int)
    | VolumeChanged(outputId: string, volume: real, isMuted: bool)
    | AdapterStopping(adapter: string)
    | ZonesFlushed(adapter: string, zoneIds: set<ZoneId>)
    | ShuttingDown
    | OtherEvent(name: string)

  // ---------------------------------------------------------------------------
  // Prefixed zone ids
  // ---------------------------------------------------------------------------

  /** `id` starts with `adapter:`. */
  predicate OwnedBy(adapter: string, id: ZoneId) {
    adapter + ":" <= id
  }

  function Prefixed(adapter: string, raw: string): ZoneId {
    adapter + ":" + raw
  }

  const KNOWN_ADAPTERS := ["roon", "lms", "openhome", "upnp", "hqplayer", "applemusic", "spotify", "musicassistant"]

  /** The ids `PrefixedZoneId::parse` accepts. */
  predicate Parses(id: ZoneId) {
    exists adapter | adapter in KNOWN_ADAPTERS :: OwnedBy(adapter, id)
  }

  lemma {:induction false} PrefixedIsOwned(adapter: string, raw: string)
    ensures OwnedBy(adapter, Prefixed(adapter, raw))
  {
  }

  /** Distinct raw ids never collide under one prefix. */
  lemma {:induction false} PrefixedInjective(adapter: string, a: string, b: string)
    requires Prefixed(adapter, a) == Prefixed(adapter, b)
    ensures a == b
  {
    var p := adapter + ":";
    assert (p + a)[|p|..] == a && (p + b)[|p|..] == b;
  }

  /** A zone id belongs to at most one adapter: the prefix test cannot reach another
      adapter's zones, because adapter names carry no colon. */
  lemma {:induction false} OwnerIsUnique(a: string, b: string, id: ZoneId)
    requires ':' !in a && ':' !in b
    requires OwnedBy(a, id) && OwnedBy(b, id)
    ensures a == b
  {
    var pa, pb := a + ":", b + ":";
    assert id[|a|] == pa[|a|] == ':' && id[|b|] == pb[|b|] == ':';
    assert a == id[..|a|] && b == id[..|b|];
  }

  /** Exactly these eight prefixes are known; what follows the colon is free. */
  lemma {:induction false} ParsesExactly(adapter: string, raw: string)
    requires ':' !in adapter
    ensures Parses(Prefixed(adapter, raw))
            <==> || adapter == "roon" || adapter == "lms" || adapter == "openhome" || adapter == "upnp"
                 || adapter == "hqplayer" || adapter == "applemusic" || adapter == "spotify"
                 || adapter == "musicassistant"
  {
    var id := Prefixed(adapter, raw);
    PrefixedIsOwned(adapter, raw);
    if known :| known in KNOWN_ADAPTERS && OwnedBy(known, id) {
      NoColon(known);
      OwnerIsUnique(adapter, known, id);
    }
    assert adapter in KNOWN_ADAPTERS ==> OwnedBy(adapter, id);
  }

  lemma {:induction false} NoColon(known: string)
    requires known in KNOWN_ADAPTERS
    ensures ':' !in known
  {
  }

  // ---------------------------------------------------------------------------
  // Playback state as text
  // ---------------------------------------------------------------------------

  /** `Display for PlaybackState`. */
  function StateText(state: PlaybackState): string {
    match state
    case Playing => "playing"
    case Paused => "paused"
    case Stopped => "stopped"
    case Loading => "loading"
    case Buffering => "buffering"
    case Unknown => "unknown"
  }

  function LowerChar(c: char): char {
    if 'A' <= c <= 'Z' then (c as int - 'A' as int + 'a' as int) as char else c
  }

  function Lower(s: string): string {
    seq(|s|, i requires 0 <= i < |s| => LowerChar(s[i]))
  }

  /** `From<&str> for PlaybackState`: case-insensitive, with the short spellings. */
  function ParseState(text: string): PlaybackState {
    var s := Lower(text);
    if s == "playing" || s == "play" then Playing
    else if s == "paused" || s == "pause" then Paused
    else if s == "stopped" || s == "stop" then Stopped
    else if s == "loading" then Loading
    else if s == "buffering" then Buffering
    else Unknown
  }

  /** A state survives the trip through the text carried by `ZoneUpdated`. */
  lemma {:induction false} StateRoundTrip(state: PlaybackState)
    ensures ParseState(StateText(state)) == state
  {
    assert Lower(StateText(state)) == StateText(state);
  }

  /** The text is this small-letter word, any of its letters capital. */
  predicate Spells(text: string, small: string) {
    && |text| == |small|
    && forall i :: 0 <= i < |text| ==> text[i] == small[i] || text[i] as int == small[i] as int - 32
  }

  lemma {:induction false} LowerIgnoresCase(text: string, small: string)
    requires forall c :: c in small ==> 'a' <= c <= 'z'
    ensures Lower(text) == small <==> Spells(text, small)
  {
    forall i | 0 <= i < |small| ensures 'a' <= small[i] <= 'z' {
      assert small[i] in small;
    }
    if |text| == |small| {
      forall i | 0 <= i < |text|
        ensures Lower(text)[i] == small[i] <==> text[i] == small[i] || text[i] as int == small[i] as int - 32
      {
      }
    }
  }

  /** Which spellings read as which state, whatever their case; anything else reads as unknown. */
  lemma {:induction false} StatesAreRead(text: string)
    ensures ParseState(text) == Playing <==> Spells(text, "playing") || Spells(text, "play")
    ensures ParseState(text) == Paused <==> Spells(text, "paused") || Spells(text, "pause")
    ensures ParseState(text) == Stopped <==> Spells(text, "stopped") || Spells(text, "stop")
    ensures ParseState(text) == Loading <==> Spells(text, "loading")
    ensures ParseState(text) == Buffering <==> Spells(text, "buffering")
  {
    hide Lower, Spells;
    forall small <- ["playing", "play", "paused", "pause", "stopped", "stop", "loading", "buffering"]
      ensures Lower(text) == small <==> Spells(text, small)
    {
      SmallLetters(small);
      LowerIgnoresCase(text, small);
    }
  }

  lemma {:induction false} SmallLetters(small: string)
    requires small in ["playing", "play", "paused", "pause", "stopped", "stop", "loading", "buffering"]
    ensures forall c :: c in small ==> 'a' <= c <= 'z'
  {
  }

  // ---------------------------------------------------------------------------
  // Seek positions
  // ---------------------------------------------------------------------------

  /** `f64::round`: to the nearest integer, halves away from zero. */
  function Round(x: real): int {
    if x >= 0.0 then (x + 0.5).Floor else -((-x + 0.5).Floor)
  }

  /** Rounding is to the nearest whole number, and away from zero where two are equally near. */
  lemma {:induction false} RoundIsNearest(x: real, n: int)
    ensures n == Round(x)
            <==> || (x >= 0.0 && n as real - 0.5 <= x < n as real + 0.5 && n >= 0)
                 || (x < 0.0 && n as real - 0.5 < x <= n as real + 0.5 && n <= 0)
  {
    if x >= 0.0 {
      assert (x + 0.5).Floor as real <= x + 0.5 < (x + 0.5).Floor as real + 1.0;
    } else {
      assert (-x + 0.5).Floor as real <= -x + 0.5 < (-x + 0.5).Floor as real + 1.0;
    }
  }

  /** A zone as its own echo leaves it: the seek position rounded to whole seconds. */
  function Rounded(zone: Zone): Zone {
    if zone.nowPlaying.Some? && zone.nowPlaying.value.seekPosition.Some? then
      zone.(nowPlaying := Some(zone.nowPlaying.value.(
                                 seekPosition := Some(Round(zone.nowPlaying.value.seekPosition.value) as real))))
    else
      zone
  }

  lemma {:induction false} RoundedTwice(zone: Zone)
    ensures Rounded(Rounded(zone)) == Rounded(zone)
  {
    if zone.nowPlaying.Some? && zone.nowPlaying.value.seekPosition.Some? {
      var n := Round(zone.nowPlaying.value.seekPosition.value);
      assert Round(n as real) == n;
    }
  }
}
