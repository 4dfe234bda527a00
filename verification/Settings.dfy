/** The settings normalizer (api/api_settings.py) and what a restart reads back
  (server.py).  The last lemmas give the routes what they rely on. */
module Settings {
  import opened Prelude
  import opened PyText
  import opened JsonValue
  import opened SettingsRoutes

  const LANGUAGES := ["auto", "en", "de", "ru", "uk"]
  const TEMPERATURES := ["c", "f", "both"]
  const PRESSURES := ["hpa", "mmhg", "both"]
  const WINDS := ["ms", "kmh", "mph"]
  const TIME_FORMATS := ["12", "24"]
  const MAPS := ["osm", "google"]
  const WEATHERS := ["openweather", "weatherapi"]
  const TRANSPORTS := ["serial", "bluetooth"]
  const MODES := ["disabled", "manual", "node"]
  const TARGETS := ["node", "channel"]
  const DELAYS := {30, 60, 90, 120, 180, 300}
  const DURATIONS := {900, 1800, 3600, 10800, 21600, 43200, 86400, 172800, 604800}

  datatype Units = Units(temperature: string, pressure: string, wind: string, timeFormat: string)
  datatype Recovery = Recovery(enabled: bool, delay: int)
  datatype Radio = Radio(transport: string, bleAddress: string, bleName: string)
  datatype Place = Place(mode: string, latitude: Option<real>, longitude: Option<real>, nodeId: string, name: string)
  datatype Waypoint = Waypoint(channel: int, duration: int, notify: bool)
  datatype Timer = Timer(notify: bool, mesh: bool, target: string, channel: int, nodeId: string)
  datatype Updates = Updates(autoCheck: bool, interval: int)
  datatype Notifications = Notifications(enabled: bool, timer: bool, schedule: bool, channelMessage: bool,
                                         dmMessage: bool, update: bool)

  // What normalization produces; one field per section.
  datatype Normal = Normal(
    language: string, units: Units, batteryMah: int, recovery: Recovery, maps: string, radio: Radio, weather: string,
    place: Place, waypoint: Waypoint, waypointProfiles: seq<Item<Waypoint>>,
    timer: Timer, timerProfiles: seq<Item<Timer>>, updates: Updates, notifications: Notifications)

  // ----------------------------------------------------------------- single values

  function Or(j: Option<Json>, default: Json): Json {
    if j.Some? then j.value else default
  }

  // str(...).strip().lower(), or `fallback` when that is not an allowed word.
  function Choice(py: Python, j: Option<Json>, default: string, allowed: seq<string>, fallback: string): string {
    var word := Lower(py, Strip(Text(py, Or(j, Str(default)))));
    if word in allowed then word else fallback
  }

  function Clean(py: Python, j: Option<Json>, default: string): string {
    Strip(Text(py, Or(j, Str(default))))
  }

  // int(...), or `fallback` when that raises.
  function Number(py: Python, j: Option<Json>, default: int): int {
    var n := Whole(py, Or(j, Int(default)));
    if n.Some? then n.value else default
  }

  function Flag(j: Option<Json>, default: bool): bool {
    Truthy(Or(j, Bool(default)))
  }

  function Clamp(n: int, least: int, most: int): int {
    if n < least then least else if n > most then most else n
  }

  function Coordinate(py: Python, j: Json, bound: real): Option<real> {
    if j == Null || j == Str("") then None
    else
      var number := Fraction(py, j);
      if number.None? || number.value < -bound || number.value > bound then None else number
  }

  function CoordinateJson(c: Option<real>): Json {
    if c.Some? then Float(c.value) else Null
  }

  // ---------------------------------------------------------------------- sections

  function UnitsOf(py: Python, d: Items): Units {
    Units(Choice(py, Get(d, "temperature"), "c", TEMPERATURES, "c"),
          Choice(py, Get(d, "pressure"), "hpa", PRESSURES, "hpa"),
          Choice(py, Get(d, "wind"), "ms", WINDS, "ms"),
          Choice(py, Get(d, "time_format"), "24", TIME_FORMATS, "24"))
  }

  function UnitsItems(u: Units): Items {
    [Item("temperature", Str(u.temperature)), Item("pressure", Str(u.pressure)), Item("wind", Str(u.wind)),
     Item("time_format", Str(u.timeFormat))]
  }

  function BatteryOf(py: Python, d: Items): int {
    Clamp(Number(py, Get(d, "battery_capacity_mah"), 3000), 100, 50000)
  }

  function BatteryItems(mah: int): Items {
    [Item("battery_capacity_mah", Int(mah))]
  }

  function RecoveryOf(py: Python, d: Items): Recovery {
    var delay := Number(py, Get(d, "delay"), 60);
    Recovery(Flag(Get(d, "enabled"), false), if delay in DELAYS then delay else 60)
  }

  function RecoveryItems(r: Recovery): Items {
    [Item("enabled", Bool(r.enabled)), Item("delay", Int(r.delay))]
  }

  function RadioOf(py: Python, d: Items): Radio {
    Radio(Choice(py, Get(d, "transport"), "serial", TRANSPORTS, "serial"), CleanOrEmpty(py, Get(d, "ble_address")),
          CleanOrEmpty(py, Get(d, "ble_name")))
  }

  function RadioItems(r: Radio): Items {
    [Item("transport", Str(r.transport)), Item("ble_address", Str(r.bleAddress)), Item("ble_name", Str(r.bleName))]
  }

  function ProviderItems(name: string): Items {
    [Item("provider", Str(name))]
  }

  // Coordinates may also come in the old flat form.
  function PlaceOf(py: Python, d: Items): Place {
    var manual := Sub(d, "manual");
    Place(Choice(py, Get(d, "mode"), "disabled", MODES, "disabled"),
          Coordinate(py, Or(Get(manual, "latitude"), Or(Get(d, "latitude"), Null)), 90.0),
          Coordinate(py, Or(Get(manual, "longitude"), Or(Get(d, "longitude"), Null)), 180.0),
          Clean(py, Get(d, "node_id"), ""), Clean(py, Get(d, "place_name"), ""))
  }

  function ManualItems(p: Place): Items {
    [Item("latitude", CoordinateJson(p.latitude)), Item("longitude", CoordinateJson(p.longitude))]
  }

  function PlaceItems(p: Place): Items {
    [Item("mode", Str(p.mode)), Item("manual", Dict(ManualItems(p))), Item("node_id", Str(p.nodeId)),
     Item("place_name", Str(p.name))]
  }

  const WAYPOINT := Waypoint(0, 3600, true)

  function WaypointOf(py: Python, d: Items, fallback: Waypoint): Waypoint {
    var duration := Number(py, Get(d, "last_duration_seconds"), fallback.duration);
    Waypoint(Clamp(Number(py, Get(d, "last_channel_index"), fallback.channel), 0, 7),
             if duration in DURATIONS then duration else fallback.duration,
             Flag(Get(d, "post_notification"), fallback.notify))
  }

  function WaypointItems(w: Waypoint): Items {
    [Item("last_channel_index", Int(w.channel)), Item("last_duration_seconds", Int(w.duration)),
     Item("post_notification", Bool(w.notify))]
  }

  const TIMER := Timer(false, false, "node", 0, "")

  function TimerOf(py: Python, d: Items, fallback: Timer): Timer {
    Timer(Flag(Get(d, "notify_enabled"), fallback.notify), Flag(Get(d, "mesh_enabled"), fallback.mesh),
          Choice(py, Get(d, "target_type"), fallback.target, TARGETS, "node"),
          Clamp(Number(py, Get(d, "channel_index"), fallback.channel), 0, 7),
          Clean(py, Get(d, "node_id"), fallback.nodeId))
  }

  function TimerItems(t: Timer): Items {
    [Item("notify_enabled", Bool(t.notify)), Item("mesh_enabled", Bool(t.mesh)), Item("target_type", Str(t.target)),
     Item("channel_index", Int(t.channel)), Item("node_id", Str(t.nodeId))]
  }

  function UpdatesOf(py: Python, d: Items): Updates {
    var interval := Number(py, Get(d, "interval"), 86400);
    Updates(Flag(Get(d, "auto_check"), true), if interval < 300 then 300 else interval)
  }

  function UpdatesItems(u: Updates): Items {
    [Item("auto_check", Bool(u.autoCheck)), Item("interval", Int(u.interval))]
  }

  function NotificationsOf(d: Items): Notifications {
    var c := Sub(d, "categories");
    Notifications(Flag(Get(d, "enabled"), false), Flag(Get(c, "timer"), true), Flag(Get(c, "schedule"), true),
                  Flag(Get(c, "channel_message"), false), Flag(Get(c, "dm_message"), true),
                  Flag(Get(c, "update"), true))
  }

  function CategoryItems(n: Notifications): Items {
    [Item("timer", Bool(n.timer)), Item("schedule", Bool(n.schedule)),
     Item("channel_message", Bool(n.channelMessage)), Item("dm_message", Bool(n.dmMessage)),
     Item("update", Bool(n.update))]
  }

  function NotificationsItems(n: Notifications): Items {
    [Item("enabled", Bool(n.enabled)), Item("categories", Dict(CategoryItems(n)))]
  }

  // ---------------------------------------------------------------------- profiles

  function ProfileId(py: Python, key: string): string {
    Lower(py, Strip(key))
  }

  predicate IsProfileId(id: string) {
    1 <= |id| <= 64 && Word(id)
  }

  // Per-profile values under their cleaned ids; of two keys that clean to the same
  // id the later one counts.
  function Profiles<T>(py: Python, read: Items -> T, raw: Items): seq<Item<T>> {
    if raw == [] then []
    else
      var n := |raw| - 1;
      var before, id := Profiles(py, read, raw[..n]), ProfileId(py, raw[n].key);
      if IsProfileId(id) && raw[n].value.Dict? then Put(before, id, read(raw[n].value.items)) else before
  }

  method NormalizeProfiles<T>(py: Python, read: Items -> T, raw: Items) returns (profiles: seq<Item<T>>)
    ensures profiles == Profiles(py, read, raw)
  {
    profiles := [];
    for i := 0 to |raw|
      invariant profiles == Profiles(py, read, raw[..i])
    {
      assert raw[..i + 1][..i] == raw[..i];
      var id := ProfileId(py, raw[i].key);
      if !IsProfileId(id) || !raw[i].value.Dict? {
        continue;
      }
      profiles := Put(profiles, id, read(raw[i].value.items));
    }
    assert raw[..|raw|] == raw;
  }

  function Objects<T>(write: T -> Items, profiles: seq<Item<T>>): Items {
    if profiles == [] then []
    else
      var n := |profiles| - 1;
      Objects(write, profiles[..n]) + [Item(profiles[n].key, Dict(write(profiles[n].value)))]
  }

  // ----------------------------------------------------------------- the normalizer

  // The settings once waypoint and timer defaults are known.
  function Assembled(py: Python, d: Items, waypoint: Waypoint, waypointProfiles: seq<Item<Waypoint>>, timer: Timer,
                     timerProfiles: seq<Item<Timer>>): Normal {
    Normal(
      Choice(py, Get(d, "language"), "auto", LANGUAGES, "auto"), UnitsOf(py, Sub(d, "units")),
      BatteryOf(py, Sub(d, "power")), RecoveryOf(py, Sub(d, "listener_autorecovery")),
      Choice(py, Get(Sub(d, "maps"), "provider"), "osm", MAPS, "osm"), RadioOf(py, Sub(d, "meshtastic")),
      Choice(py, Get(Sub(d, "weather"), "provider"), "openweather", WEATHERS, "openweather"),
      PlaceOf(py, Sub(d, "reference_location")), waypoint, waypointProfiles, timer, timerProfiles,
      UpdatesOf(py, Sub(d, "updates")), NotificationsOf(Sub(d, "browser_notifications")))
  }

  function Normalized(py: Python, d: Items): Normal {
    var waypoints, timers := Sub(d, "waypoints"), Sub(d, "timers");
    var waypoint, timer := WaypointOf(py, waypoints, WAYPOINT), TimerOf(py, timers, TIMER);
    Assembled(py, d,
              waypoint, Profiles(py, r => WaypointOf(py, r, waypoint), Sub(waypoints, "profile_defaults")),
              timer, Profiles(py, r => TimerOf(py, r, timer), Sub(timers, "profile_defaults")))
  }

  // Gives allowed values only, and what normalizing again would give.
  method NormalizeSettings(py: Python, d: Items) returns (normal: Normal)
    ensures normal == Normalized(py, d)
    ensures Good(normal) && Normalized(py, Written(normal)) == normal
  {
    NormalizedIsGood(py, d);
    GoodIsFixed(py, Normalized(py, d));
    var waypoints, timers := Sub(d, "waypoints"), Sub(d, "timers");
    var waypoint := WaypointOf(py, waypoints, WAYPOINT);
    var waypointProfiles := NormalizeProfiles(py, r => WaypointOf(py, r, waypoint), Sub(waypoints, "profile_defaults"));
    var timer := TimerOf(py, timers, TIMER);
    var timerProfiles := NormalizeProfiles(py, r => TimerOf(py, r, timer), Sub(timers, "profile_defaults"));
    normal := Assembled(py, d, waypoint, waypointProfiles, timer, timerProfiles);
  }

  function Written(s: Normal): Items {
    [Item("language", Str(s.language)), Item("units", Dict(UnitsItems(s.units))),
     Item("power", Dict(BatteryItems(s.batteryMah))), Item("listener_autorecovery", Dict(RecoveryItems(s.recovery))),
     Item("maps", Dict(ProviderItems(s.maps))), Item("meshtastic", Dict(RadioItems(s.radio))),
     Item("weather", Dict(ProviderItems(s.weather))), Item("reference_location", Dict(PlaceItems(s.place))),
     Item("waypoints", Dict(WaypointItems(s.waypoint)
                            + [Item("profile_defaults", Dict(Objects(WaypointItems, s.waypointProfiles)))])),
     Item("timers", Dict(TimerItems(s.timer)
                         + [Item("profile_defaults", Dict(Objects(TimerItems, s.timerProfiles)))])),
     Item("updates", Dict(UpdatesItems(s.updates))),
     Item("browser_notifications", Dict(NotificationsItems(s.notifications)))]
  }

  // ------------------------------------------------------------ what a value becomes

  // The nearest number within the bounds.
  lemma ClampIsNearest(n: int, least: int, most: int, other: int)
    requires least <= most && least <= other <= most
    ensures least <= Clamp(n, least, most) <= most
    ensures (if n < Clamp(n, least, most) then Clamp(n, least, most) - n else n - Clamp(n, least, most))
            <= if n < other then other - n else n - other
    ensures least <= n <= most ==> Clamp(n, least, most) == n
  {}

  // A text is cleaned and, if that is an allowed word, taken; anything else, a missing
  // key included, gives the fallback or default.
  lemma ChoiceDecides(py: Python, j: Option<Json>, default: string, allowed: seq<string>, fallback: string)
    ensures j.Some? && j.value.Str? && Lower(py, Strip(j.value.text)) in allowed ==>
              Choice(py, j, default, allowed, fallback) == Lower(py, Strip(j.value.text))
    ensures j.Some? && j.value.Str? && Lower(py, Strip(j.value.text)) !in allowed ==>
              Choice(py, j, default, allowed, fallback) == fallback
    ensures j.None? && default in allowed && Word(default) ==> Choice(py, j, default, allowed, fallback) == default
  {
    if j.None? && Word(default) { WordIsPlain(py, default); }
  }

  // A number is read if it can be, else the default counts; a missing flag too.
  lemma NumberDecides(py: Python, j: Json, default: int)
    ensures Number(py, None, default) == default
    ensures Whole(py, j).Some? ==> Number(py, Some(j), default) == Whole(py, j).value
    ensures Whole(py, j).None? ==> Number(py, Some(j), default) == default
    ensures forall n :: Whole(py, Int(n)) == Some(n)
    ensures Whole(py, Null).None?
  {}

  lemma FlagDecides(flag: bool, default: bool)
    ensures Flag(None, default) == default && Flag(Some(Bool(flag)), default) == flag && !Flag(Some(Null), default)
  {}

  // A coordinate in range is kept, one outside is dropped and not moved to the edge.
  lemma CoordinateDecides(py: Python, value: real, bound: real)
    ensures Coordinate(py, Float(value), bound) == if -bound <= value <= bound then Some(value) else None
    ensures Coordinate(py, Null, bound).None? && Coordinate(py, Str(""), bound).None?
  {}

  // What the source gives as its default settings is what nothing at all normalizes to.
  const DEFAULTS := Normal(
    "auto", Units("c", "hpa", "ms", "24"), 3000, Recovery(false, 60), "osm", Radio("serial", "", ""), "openweather",
    Place("disabled", None, None, "", ""), Waypoint(0, 3600, true), [], Timer(false, false, "node", 0, ""), [],
    Updates(true, 86400), Notifications(false, true, true, false, true, true))

  lemma DefaultWords(py: Python, default: string, allowed: seq<string>, i: nat)
    requires i < |allowed| && allowed[i] == default && Word(default)
    ensures Choice(py, None, default, allowed, default) == default
  {
    ChoiceDecides(py, None, default, allowed, default);
  }

  lemma DefaultUnits(py: Python)
    ensures UnitsOf(py, []) == DEFAULTS.units
  {
    DefaultWords(py, "c", TEMPERATURES, 0);
    DefaultWords(py, "hpa", PRESSURES, 0);
    DefaultWords(py, "ms", WINDS, 0);
    DefaultWords(py, "24", TIME_FORMATS, 1);
  }

  lemma DefaultPlace(py: Python)
    ensures PlaceOf(py, []) == DEFAULTS.place
  {
    DefaultWords(py, "disabled", MODES, 0);
    StripStrips("");
  }

  lemma DefaultTimer(py: Python)
    ensures TimerOf(py, [], TIMER) == DEFAULTS.timer
  {
    DefaultWords(py, "node", TARGETS, 0);
    StripStrips("");
  }

  lemma DefaultRest(py: Python)
    ensures RadioOf(py, []) == DEFAULTS.radio && BatteryOf(py, []) == 3000 && RecoveryOf(py, []) == DEFAULTS.recovery
    ensures WaypointOf(py, [], WAYPOINT) == DEFAULTS.waypoint && UpdatesOf(py, []) == DEFAULTS.updates
    ensures NotificationsOf([]) == DEFAULTS.notifications
  {
    DefaultWords(py, "serial", TRANSPORTS, 0);
  }

  lemma DefaultLanguage(py: Python)
    ensures Choice(py, None, "auto", LANGUAGES, "auto") == DEFAULTS.language
  {
    DefaultWords(py, "auto", LANGUAGES, 0);
  }

  lemma DefaultProviders(py: Python)
    ensures Choice(py, None, "osm", MAPS, "osm") == DEFAULTS.maps
    ensures Choice(py, None, "openweather", WEATHERS, "openweather") == DEFAULTS.weather
  {
    DefaultWords(py, "osm", MAPS, 0);
    DefaultWords(py, "openweather", WEATHERS, 0);
  }

  lemma DefaultFront(py: Python)
    ensures var s := Normalized(py, []);
            && s.language == DEFAULTS.language && s.units == DEFAULTS.units && s.batteryMah == 3000
            && s.recovery == DEFAULTS.recovery && s.maps == DEFAULTS.maps && s.radio == DEFAULTS.radio
            && s.weather == DEFAULTS.weather && s.place == DEFAULTS.place
  {
    DefaultLanguage(py);
    DefaultProviders(py);
    DefaultUnits(py);
    DefaultPlace(py);
    DefaultRest(py);
  }

  lemma DefaultBack(py: Python)
    ensures var s := Normalized(py, []);
            && s.waypoint == DEFAULTS.waypoint && s.waypointProfiles == [] && s.timer == DEFAULTS.timer
            && s.timerProfiles == [] && s.updates == DEFAULTS.updates && s.notifications == DEFAULTS.notifications
  {
    DefaultTimer(py);
    DefaultRest(py);
  }

  lemma AllDefaults(s: Normal)
    requires s.language == DEFAULTS.language && s.units == DEFAULTS.units && s.batteryMah == 3000
    requires s.recovery == DEFAULTS.recovery && s.maps == DEFAULTS.maps && s.radio == DEFAULTS.radio
    requires s.weather == DEFAULTS.weather && s.place == DEFAULTS.place
    requires s.waypoint == DEFAULTS.waypoint && s.waypointProfiles == [] && s.timer == DEFAULTS.timer
    requires s.timerProfiles == [] && s.updates == DEFAULTS.updates && s.notifications == DEFAULTS.notifications
    ensures s == DEFAULTS
  {}

  lemma NothingNormalizesToDefaults(py: Python)
    ensures Normalized(py, []) == DEFAULTS
  {
    DefaultFront(py);
    DefaultBack(py);
    AllDefaults(Normalized(py, []));
  }

  // --------------------------------------------------------------------- closedness

  ghost predicate GoodUnits(u: Units) {
    u.temperature in TEMPERATURES && u.pressure in PRESSURES && u.wind in WINDS && u.timeFormat in TIME_FORMATS
  }

  ghost predicate GoodRadio(r: Radio) {
    r.transport in TRANSPORTS && Stripped(r.bleAddress) && Stripped(r.bleName)
  }

  ghost predicate Within(c: Option<real>, bound: real) {
    c.Some? ==> -bound <= c.value <= bound
  }

  ghost predicate GoodPlace(p: Place) {
    && p.mode in MODES && Within(p.latitude, 90.0) && Within(p.longitude, 180.0)
    && Stripped(p.nodeId) && Stripped(p.name)
  }

  ghost predicate GoodWaypoint(w: Waypoint) {
    0 <= w.channel <= 7 && w.duration in DURATIONS
  }

  ghost predicate GoodTimer(t: Timer) {
    t.target in TARGETS && 0 <= t.channel <= 7 && Stripped(t.nodeId)
  }

  ghost predicate GoodProfiles<T(!new)>(profiles: seq<Item<T>>, good: T -> bool) {
    Distinct(profiles) && forall p :: p in profiles ==> IsProfileId(p.key) && good(p.value)
  }

  ghost predicate Good(s: Normal) {
    && s.language in LANGUAGES && GoodUnits(s.units) && 100 <= s.batteryMah <= 50000 && s.recovery.delay in DELAYS
    && s.maps in MAPS && GoodRadio(s.radio) && s.weather in WEATHERS && GoodPlace(s.place)
    && GoodWaypoint(s.waypoint) && GoodProfiles(s.waypointProfiles, w => GoodWaypoint(w))
    && GoodTimer(s.timer) && GoodProfiles(s.timerProfiles, t => GoodTimer(t))
    && s.updates.interval >= 300
  }

  // ------------------------------------------------------------- what normalizing gives

  lemma WordsArePlain()
    ensures forall w :: w in LANGUAGES || w in TEMPERATURES || w in PRESSURES || w in WINDS ==> Word(w)
    ensures forall w :: w in TIME_FORMATS || w in MAPS || w in WEATHERS || w in TRANSPORTS ==> Word(w)
    ensures forall w :: w in MODES || w in TARGETS ==> Word(w)
  {}

  lemma ChoiceOfWord(py: Python, word: string, default: string, allowed: seq<string>, fallback: string)
    requires word in allowed && Word(word)
    ensures Choice(py, Some(Str(word)), default, allowed, fallback) == word
  {
    WordIsPlain(py, word);
  }

  lemma UnitsFixed(py: Python, u: Units)
    requires GoodUnits(u)
    ensures UnitsOf(py, UnitsItems(u)) == u
  {
    GetEach(UnitsItems(u));
    WordsArePlain();
    ChoiceOfWord(py, u.temperature, "c", TEMPERATURES, "c");
    ChoiceOfWord(py, u.pressure, "hpa", PRESSURES, "hpa");
    ChoiceOfWord(py, u.wind, "ms", WINDS, "ms");
    ChoiceOfWord(py, u.timeFormat, "24", TIME_FORMATS, "24");
    var d := UnitsItems(u);
    assert d[0].key == "temperature" && d[1].key == "pressure" && d[2].key == "wind" && d[3].key == "time_format";
  }

  lemma CleanOfStripped(py: Python, s: string, default: string)
    requires Stripped(s)
    ensures Clean(py, Some(Str(s)), default) == s && CleanOrEmpty(py, Some(Str(s))) == s
  {
    StripStrips(s);
  }

  lemma RadioFixed(py: Python, r: Radio)
    requires GoodRadio(r)
    ensures RadioOf(py, RadioItems(r)) == r
  {
    GetEach(RadioItems(r));
    WordsArePlain();
    ChoiceOfWord(py, r.transport, "serial", TRANSPORTS, "serial");
    CleanOfStripped(py, r.bleAddress, "");
    CleanOfStripped(py, r.bleName, "");
    var d := RadioItems(r);
    assert d[0].key == "transport" && d[1].key == "ble_address" && d[2].key == "ble_name";
  }

  lemma PlaceHolds(p: Place)
    ensures var d, m := PlaceItems(p), ManualItems(p);
            && Get(d, "mode") == Some(Str(p.mode)) && Sub(d, "manual") == m && Get(d, "node_id") == Some(Str(p.nodeId))
            && Get(d, "place_name") == Some(Str(p.name))
            && Get(m, "latitude") == Some(CoordinateJson(p.latitude))
            && Get(m, "longitude") == Some(CoordinateJson(p.longitude))
  {
    var d, m := PlaceItems(p), ManualItems(p);
    GetEach(d);
    GetEach(m);
    assert d[0].key == "mode" && d[1].key == "manual" && d[2].key == "node_id" && d[3].key == "place_name";
    assert m[0].key == "latitude" && m[1].key == "longitude";
  }

  lemma PlaceFixed(py: Python, p: Place)
    requires GoodPlace(p)
    ensures PlaceOf(py, PlaceItems(p)) == p
  {
    PlaceHolds(p);
    WordsArePlain();
    ChoiceOfWord(py, p.mode, "disabled", MODES, "disabled");
    CleanOfStripped(py, p.nodeId, "");
    CleanOfStripped(py, p.name, "");
  }

  lemma WaypointFixed(py: Python, w: Waypoint, fallback: Waypoint, more: Items)
    requires GoodWaypoint(w)
    ensures WaypointOf(py, WaypointItems(w) + more, fallback) == w
  {
    var d := WaypointItems(w);
    GetEach(d);
    assert d[0].key == "last_channel_index" && d[1].key == "last_duration_seconds" && d[2].key == "post_notification";
    GetOfLonger(d, more, "last_channel_index");
    GetOfLonger(d, more, "last_duration_seconds");
    GetOfLonger(d, more, "post_notification");
  }

  lemma TimerFixed(py: Python, t: Timer, fallback: Timer, more: Items)
    requires GoodTimer(t)
    ensures TimerOf(py, TimerItems(t) + more, fallback) == t
  {
    var d := TimerItems(t);
    GetEach(d);
    assert d[0].key == "notify_enabled" && d[1].key == "mesh_enabled" && d[2].key == "target_type";
    assert d[3].key == "channel_index" && d[4].key == "node_id";
    GetOfLonger(d, more, "notify_enabled");
    GetOfLonger(d, more, "mesh_enabled");
    GetOfLonger(d, more, "target_type");
    GetOfLonger(d, more, "channel_index");
    GetOfLonger(d, more, "node_id");
    WordsArePlain();
    ChoiceOfWord(py, t.target, fallback.target, TARGETS, "node");
    CleanOfStripped(py, t.nodeId, fallback.nodeId);
  }

  lemma NumbersFixed(py: Python, mah: int, r: Recovery, u: Updates)
    requires 100 <= mah <= 50000 && r.delay in DELAYS && u.interval >= 300
    ensures BatteryOf(py, BatteryItems(mah)) == mah
    ensures RecoveryOf(py, RecoveryItems(r)) == r
    ensures UpdatesOf(py, UpdatesItems(u)) == u
  {
    GetEach(BatteryItems(mah));
    GetEach(RecoveryItems(r));
    GetEach(UpdatesItems(u));
    assert BatteryItems(mah)[0].key == "battery_capacity_mah";
    assert RecoveryItems(r)[0].key == "enabled" && RecoveryItems(r)[1].key == "delay";
    assert UpdatesItems(u)[0].key == "auto_check" && UpdatesItems(u)[1].key == "interval";
  }

  lemma CategoriesHold(n: Notifications)
    ensures var c := CategoryItems(n);
            && Get(c, "timer") == Some(Bool(n.timer)) && Get(c, "schedule") == Some(Bool(n.schedule))
            && Get(c, "channel_message") == Some(Bool(n.channelMessage))
            && Get(c, "dm_message") == Some(Bool(n.dmMessage)) && Get(c, "update") == Some(Bool(n.update))
  {
    var c := CategoryItems(n);
    GetEach(c);
    assert c[0].key == "timer" && c[1].key == "schedule" && c[2].key == "channel_message";
    assert c[3].key == "dm_message" && c[4].key == "update";
  }

  lemma NotificationsFixed(n: Notifications)
    ensures NotificationsOf(NotificationsItems(n)) == n
  {
    var d := NotificationsItems(n);
    GetEach(d);
    assert d[0].key == "enabled" && d[1].key == "categories";
    assert Sub(d, "categories") == CategoryItems(n) && Flag(Get(d, "enabled"), false) == n.enabled;
    CategoriesHold(n);
  }

  lemma OneMoreProfile<T>(py: Python, read: Items -> T, raw: Items, id: string, items: Items)
    requires IsProfileId(id)
    ensures Profiles(py, read, raw + [Item(id, Dict(items))]) == Put(Profiles(py, read, raw), id, read(items))
  {
    WordIsPlain(py, id);
    assert (raw + [Item(id, Dict(items))])[..|raw|] == raw;
  }

  ghost predicate ReadsBack<T(!new)>(read: Items -> T, write: T -> Items, profiles: seq<Item<T>>) {
    Distinct(profiles) && forall p :: p in profiles ==> IsProfileId(p.key) && read(write(p.value)) == p.value
  }

  lemma ReadsBackFront<T(!new)>(read: Items -> T, write: T -> Items, profiles: seq<Item<T>>, n: nat)
    requires ReadsBack(read, write, profiles) && |profiles| == n + 1
    ensures ReadsBack(read, write, profiles[..n])
    ensures IsProfileId(profiles[n].key) && read(write(profiles[n].value)) == profiles[n].value
    ensures forall i :: 0 <= i < n ==> profiles[..n][i].key != profiles[n].key
  {
    assert profiles[n] in profiles;
  }

  lemma {:induction false} ProfilesFixed<T(!new)>(py: Python, read: Items -> T, write: T -> Items,
                                                  profiles: seq<Item<T>>)
    requires ReadsBack(read, write, profiles)
    ensures Profiles(py, read, Objects(write, profiles)) == profiles
  {
    if profiles != [] {
      var n := |profiles| - 1;
      var front, last := profiles[..n], profiles[n];
      ReadsBackFront(read, write, profiles, n);
      ProfilesFixed(py, read, write, front);
      OneMoreProfile(py, read, Objects(write, front), last.key, write(last.value));
      PutNew(front, last.key, last.value);
      assert profiles == front + [last];
    }
  }

  lemma {:induction false} ProfilesAreGood<T(!new)>(py: Python, read: Items -> T, good: T -> bool, raw: Items)
    requires forall d: Items :: good(read(d))
    ensures GoodProfiles(Profiles(py, read, raw), good)
  {
    if raw != [] {
      var n := |raw| - 1;
      ProfilesAreGood(py, read, good, raw[..n]);
      if raw[n].value.Dict? {
        KeysOfPut(Profiles(py, read, raw[..n]), ProfileId(py, raw[n].key), read(raw[n].value.items));
      }
    }
  }

  lemma DefaultsAreAllowed()
    ensures "auto" in LANGUAGES && "c" in TEMPERATURES && "hpa" in PRESSURES && "ms" in WINDS && "24" in TIME_FORMATS
    ensures "osm" in MAPS && "openweather" in WEATHERS && "serial" in TRANSPORTS && "disabled" in MODES
    ensures "node" in TARGETS
  {
    assert LANGUAGES[0] == "auto" && TEMPERATURES[0] == "c" && PRESSURES[0] == "hpa" && WINDS[0] == "ms";
    assert TIME_FORMATS[1] == "24" && MAPS[0] == "osm" && WEATHERS[0] == "openweather" && TRANSPORTS[0] == "serial";
    assert MODES[0] == "disabled" && TARGETS[0] == "node";
  }

  lemma CleanIsStripped(py: Python)
    ensures forall j, default :: Stripped(Clean(py, j, default))
    ensures forall j :: Stripped(CleanOrEmpty(py, j))
  {
    forall j, default ensures Stripped(Clean(py, j, default)) { StripStrips(Text(py, Or(j, Str(default)))); }
    forall j ensures Stripped(CleanOrEmpty(py, j)) {
      if j.Some? && Truthy(j.value) { StripStrips(Text(py, j.value)); }
    }
  }

  lemma SectionsAreGood(py: Python, units: Items, radio: Items, place: Items)
    ensures GoodUnits(UnitsOf(py, units)) && GoodRadio(RadioOf(py, radio)) && GoodPlace(PlaceOf(py, place))
  {
    DefaultsAreAllowed();
    CleanIsStripped(py);
  }

  lemma ValuesAreGood(py: Python, d: Items)
    ensures Choice(py, Get(d, "language"), "auto", LANGUAGES, "auto") in LANGUAGES
    ensures Choice(py, Get(Sub(d, "maps"), "provider"), "osm", MAPS, "osm") in MAPS
    ensures Choice(py, Get(Sub(d, "weather"), "provider"), "openweather", WEATHERS, "openweather") in WEATHERS
    ensures 100 <= BatteryOf(py, Sub(d, "power")) <= 50000
    ensures RecoveryOf(py, Sub(d, "listener_autorecovery")).delay in DELAYS
    ensures UpdatesOf(py, Sub(d, "updates")).interval >= 300
  {
    DefaultsAreAllowed();
  }

  lemma WaypointIsGood(py: Python, fallback: Waypoint)
    requires fallback.duration in DURATIONS
    ensures forall d :: GoodWaypoint(WaypointOf(py, d, fallback))
  {}

  lemma TimerIsGood(py: Python, fallback: Timer)
    ensures forall d :: GoodTimer(TimerOf(py, d, fallback))
  {
    DefaultsAreAllowed();
    CleanIsStripped(py);
  }

  // Whatever was posted or stored, normalizing it gives allowed values only.
  lemma NormalizedIsGood(py: Python, d: Items)
    ensures Good(Normalized(py, d))
  {
    ValuesAreGood(py, d);
    SectionsAreGood(py, Sub(d, "units"), Sub(d, "meshtastic"), Sub(d, "reference_location"));
    WaypointsAreGood(py, Sub(d, "waypoints"));
    TimersAreGood(py, Sub(d, "timers"));
  }

  lemma WaypointsAreGood(py: Python, d: Items)
    ensures var waypoint := WaypointOf(py, d, WAYPOINT);
            GoodWaypoint(waypoint)
            && GoodProfiles(Profiles(py, r => WaypointOf(py, r, waypoint), Sub(d, "profile_defaults")),
                            w => GoodWaypoint(w))
  {
    var waypoint := WaypointOf(py, d, WAYPOINT);
    WaypointIsGood(py, WAYPOINT);
    WaypointIsGood(py, waypoint);
    ProfilesAreGood(py, r => WaypointOf(py, r, waypoint), w => GoodWaypoint(w), Sub(d, "profile_defaults"));
  }

  lemma TimersAreGood(py: Python, d: Items)
    ensures var timer := TimerOf(py, d, TIMER);
            GoodTimer(timer)
            && GoodProfiles(Profiles(py, r => TimerOf(py, r, timer), Sub(d, "profile_defaults")), t => GoodTimer(t))
  {
    var timer := TimerOf(py, d, TIMER);
    TimerIsGood(py, TIMER);
    TimerIsGood(py, timer);
    ProfilesAreGood(py, r => TimerOf(py, r, timer), t => GoodTimer(t), Sub(d, "profile_defaults"));
  }

  // What each section of the written settings holds.
  lemma SectionsHold(s: Normal)
    ensures var d := Written(s);
            && Get(d, "language") == Some(Str(s.language)) && Sub(d, "units") == UnitsItems(s.units)
            && Sub(d, "power") == BatteryItems(s.batteryMah)
            && Sub(d, "listener_autorecovery") == RecoveryItems(s.recovery)
            && Sub(d, "maps") == ProviderItems(s.maps) && Sub(d, "meshtastic") == RadioItems(s.radio)
            && Sub(d, "weather") == ProviderItems(s.weather) && Sub(d, "reference_location") == PlaceItems(s.place)
  {
    var d := Written(s);
    WrittenKeys(s);
    GetEach(d);
    assert d[0].key == "language" && d[1].key == "units" && d[2].key == "power";
    assert d[3].key == "listener_autorecovery" && d[4].key == "maps" && d[5].key == "meshtastic";
    assert d[6].key == "weather" && d[7].key == "reference_location";
  }

  lemma LaterSectionsHold(s: Normal)
    ensures var d := Written(s);
            && Sub(d, "waypoints") == WaypointItems(s.waypoint)
                                      + [Item("profile_defaults", Dict(Objects(WaypointItems, s.waypointProfiles)))]
            && Sub(d, "timers") == TimerItems(s.timer)
                                   + [Item("profile_defaults", Dict(Objects(TimerItems, s.timerProfiles)))]
            && Sub(d, "updates") == UpdatesItems(s.updates)
            && Sub(d, "browser_notifications") == NotificationsItems(s.notifications)
  {
    var d := Written(s);
    WrittenKeys(s);
    GetEach(d);
    assert d[8].key == "waypoints" && d[9].key == "timers" && d[10].key == "updates";
    assert d[11].key == "browser_notifications";
  }

  lemma WrittenKeys(s: Normal)
    ensures Distinct(Written(s)) && |Written(s)| == 12
  {}

  lemma ProviderFixed(py: Python, name: string, default: string, allowed: seq<string>)
    requires name in allowed && Word(name)
    ensures Choice(py, Get(ProviderItems(name), "provider"), default, allowed, default) == name
  {
    ChoiceOfWord(py, name, default, allowed, default);
  }

  lemma WaypointsFixed(py: Python, s: Normal, d: Items)
    requires GoodWaypoint(s.waypoint) && GoodProfiles(s.waypointProfiles, w => GoodWaypoint(w))
    requires d == WaypointItems(s.waypoint)
                  + [Item("profile_defaults", Dict(Objects(WaypointItems, s.waypointProfiles)))]
    ensures WaypointOf(py, d, WAYPOINT) == s.waypoint
    ensures Profiles(py, r => WaypointOf(py, r, s.waypoint), Sub(d, "profile_defaults")) == s.waypointProfiles
  {
    WaypointFixed(py, s.waypoint, WAYPOINT, d[3..]);
    GetEach(d);
    assert d[3].key == "profile_defaults";
    forall w | GoodWaypoint(w) ensures WaypointOf(py, WaypointItems(w), s.waypoint) == w {
      WaypointFixed(py, w, s.waypoint, []);
      assert WaypointItems(w) + [] == WaypointItems(w);
    }
    ProfilesFixed(py, r => WaypointOf(py, r, s.waypoint), WaypointItems, s.waypointProfiles);
  }

  lemma TimerProfilesFixed(py: Python, fallback: Timer, profiles: seq<Item<Timer>>)
    requires GoodProfiles(profiles, t => GoodTimer(t))
    ensures Profiles(py, r => TimerOf(py, r, fallback), Objects(TimerItems, profiles)) == profiles
  {
    forall t | GoodTimer(t) ensures TimerOf(py, TimerItems(t), fallback) == t {
      TimerFixed(py, t, fallback, []);
      assert TimerItems(t) + [] == TimerItems(t);
    }
    ProfilesFixed(py, r => TimerOf(py, r, fallback), TimerItems, profiles);
  }

  lemma TimersFixed(py: Python, s: Normal, d: Items)
    requires GoodTimer(s.timer) && GoodProfiles(s.timerProfiles, t => GoodTimer(t))
    requires d == TimerItems(s.timer) + [Item("profile_defaults", Dict(Objects(TimerItems, s.timerProfiles)))]
    ensures TimerOf(py, d, TIMER) == s.timer
    ensures Profiles(py, r => TimerOf(py, r, s.timer), Sub(d, "profile_defaults")) == s.timerProfiles
  {
    TimerFixed(py, s.timer, TIMER, d[5..]);
    GetEach(d);
    assert d[5].key == "profile_defaults";
    TimerProfilesFixed(py, s.timer, s.timerProfiles);
  }

  lemma GoodIsFixed(py: Python, s: Normal)
    requires Good(s)
    ensures Normalized(py, Written(s)) == s
  {
    SectionsHold(s);
    LaterSectionsHold(s);
    var d := Written(s);
    WordsArePlain();
    ChoiceOfWord(py, s.language, "auto", LANGUAGES, "auto");
    UnitsFixed(py, s.units);
    NumbersFixed(py, s.batteryMah, s.recovery, s.updates);
    ProviderFixed(py, s.maps, "osm", MAPS);
    RadioFixed(py, s.radio);
    ProviderFixed(py, s.weather, "openweather", WEATHERS);
    PlaceFixed(py, s.place);
    WaypointsFixed(py, s, Sub(d, "waypoints"));
    TimersFixed(py, s, Sub(d, "timers"));
    NotificationsFixed(s.notifications);
  }

  // Settings survive normalization exactly when every value is an allowed one.
  lemma FixedIffGood(py: Python, s: Normal)
    ensures Normalized(py, Written(s)) == s <==> Good(s)
  {
    NormalizedIsGood(py, Written(s));
    if Good(s) { GoodIsFixed(py, s); }
  }

  // Normalizing twice is normalizing once, for every JSON document.
  lemma NormalizeIsIdempotent(py: Python, d: Items)
    ensures Normalized(py, Written(Normalized(py, d))) == Normalized(py, d)
  {
    NormalizedIsGood(py, d);
    GoodIsFixed(py, Normalized(py, d));
  }

  // A raw entry that sets profile `id`.
  predicate Sets(py: Python, raw: Items, i: nat, id: string) {
    i < |raw| && raw[i].value.Dict? && ProfileId(py, raw[i].key) == id
  }

  // A profile holds what the last entry naming it says, however that entry spells
  // the id.
  lemma {:induction false} LastEntryCounts<T>(py: Python, read: Items -> T, raw: Items, id: string, i: nat)
    requires IsProfileId(id) && Sets(py, raw, i, id) && forall j :: i < j < |raw| ==> !Sets(py, raw, j, id)
    ensures Get(Profiles(py, read, raw), id) == Some(read(raw[i].value.items))
  {
    var n := |raw| - 1;
    if i < n {
      forall j | i < j < n ensures !Sets(py, raw[..n], j, id) { assert !Sets(py, raw, j, id); }
      LastEntryCounts(py, read, raw[..n], id, i);
      assert !Sets(py, raw, n, id);
    }
    if raw[n].value.Dict? {
      GetOfPut(Profiles(py, read, raw[..n]), ProfileId(py, raw[n].key), read(raw[n].value.items), id);
    }
  }

  // A profile nobody names, or with an impossible id, does not exist.
  lemma {:induction false} UnnamedProfileIsAbsent<T>(py: Python, read: Items -> T, raw: Items, id: string)
    requires !IsProfileId(id) || forall i: nat :: !Sets(py, raw, i, id)
    ensures Get(Profiles(py, read, raw), id).None?
  {
    if raw != [] {
      var n := |raw| - 1;
      forall i: nat ensures Sets(py, raw[..n], i, id) ==> Sets(py, raw, i, id) {}
      UnnamedProfileIsAbsent(py, read, raw[..n], id);
      if raw[n].value.Dict? {
        assert IsProfileId(id) ==> !Sets(py, raw, n, id);
        GetOfPut(Profiles(py, read, raw[..n]), ProfileId(py, raw[n].key), read(raw[n].value.items), id);
      }
    }
  }

  // ------------------------------------------------------------ what the routes rely on

  function NormalItems(py: Python, d: Items): Items {
    Written(Normalized(py, d))
  }

  function Normalizer(py: Python): Items -> Items {
    d => NormalItems(py, d)
  }

  lemma NormalItemsTwice(py: Python, d: Items)
    ensures NormalItems(py, NormalItems(py, d)) == NormalItems(py, d)
  {
    NormalizeIsIdempotent(py, d);
  }

  lemma NormalizerIsIdempotent(py: Python)
    ensures Idempotent(Normalizer(py))
  {
    var normalize := Normalizer(py);
    forall d: Items ensures normalize(normalize(d)) == normalize(d) {
      NormalItemsTwice(py, d);
    }
  }

  const KEYS := ["language", "units", "power", "listener_autorecovery", "maps", "meshtastic", "weather",
                 "reference_location", "waypoints", "timers", "updates", "browser_notifications"]

  // Both write the same under the i-th key.
  predicate SameSection(s: Normal, t: Normal, i: nat) {
    match i
    case 0 => s.language == t.language
    case 1 => s.units == t.units
    case 2 => s.batteryMah == t.batteryMah
    case 3 => s.recovery == t.recovery
    case 4 => s.maps == t.maps
    case 5 => s.radio == t.radio
    case 6 => s.weather == t.weather
    case 7 => s.place == t.place
    case 8 => s.waypoint == t.waypoint && s.waypointProfiles == t.waypointProfiles
    case 9 => s.timer == t.timer && s.timerProfiles == t.timerProfiles
    case 10 => s.updates == t.updates
    case _ => s.notifications == t.notifications
  }

  lemma WrittenAt(s: Normal, t: Normal, i: nat)
    requires i < 12 && SameSection(s, t, i)
    ensures Written(s)[i] == Written(t)[i]
  {}

  lemma WrittenUnderKeys(s: Normal)
    ensures Distinct(Written(s)) && |Written(s)| == |KEYS| == 12
    ensures forall i :: 0 <= i < 12 ==> Written(s)[i].key == KEYS[i]
  {
    WrittenKeys(s);
  }

  lemma SameLookup(s: Normal, t: Normal, key: string)
    requires forall i :: 0 <= i < 12 && KEYS[i] == key ==> SameSection(s, t, i)
    ensures Get(Written(s), key) == Get(Written(t), key)
  {
    var d, e := Written(s), Written(t);
    WrittenUnderKeys(s);
    WrittenUnderKeys(t);
    if i :| 0 <= i < 12 && KEYS[i] == key {
      WrittenAt(s, t, i);
      GetAt(d, i);
      GetAt(e, i);
    } else {
      Absent(d, key);
      Absent(e, key);
    }
  }

  predicate Same(d: Items, e: Items, key: string) {
    Get(d, key) == Get(e, key)
  }

  // s and t differ only in sections where d and e do.
  predicate Follow(s: Normal, t: Normal, d: Items, e: Items) {
    && (Same(d, e, "language") ==> s.language == t.language)
    && (Same(d, e, "units") ==> s.units == t.units)
    && (Same(d, e, "power") ==> s.batteryMah == t.batteryMah)
    && (Same(d, e, "listener_autorecovery") ==> s.recovery == t.recovery)
    && (Same(d, e, "maps") ==> s.maps == t.maps)
    && (Same(d, e, "meshtastic") ==> s.radio == t.radio)
    && (Same(d, e, "weather") ==> s.weather == t.weather)
    && (Same(d, e, "reference_location") ==> s.place == t.place)
    && (Same(d, e, "waypoints") ==> s.waypoint == t.waypoint && s.waypointProfiles == t.waypointProfiles)
    && (Same(d, e, "timers") ==> s.timer == t.timer && s.timerProfiles == t.timerProfiles)
    && (Same(d, e, "updates") ==> s.updates == t.updates)
    && (Same(d, e, "browser_notifications") ==> s.notifications == t.notifications)
  }

  // Each part of the result depends on its own section only.
  lemma SectionsDecide(py: Python, d: Items, e: Items)
    ensures Follow(Normalized(py, d), Normalized(py, e), d, e)
  {}

  lemma FollowAt(s: Normal, t: Normal, d: Items, e: Items, i: nat)
    requires Follow(s, t, d, e) && i < 12 && Get(d, KEYS[i]) == Get(e, KEYS[i])
    ensures SameSection(s, t, i)
  {
    assert Same(d, e, KEYS[i]);
  }

  lemma FollowLookup(s: Normal, t: Normal, d: Items, e: Items, key: string)
    requires Follow(s, t, d, e) && Get(d, key) == Get(e, key)
    ensures Get(Written(s), key) == Get(Written(t), key)
  {
    forall i | 0 <= i < 12 && KEYS[i] == key ensures SameSection(s, t, i) {
      FollowAt(s, t, d, e, i);
    }
    SameLookup(s, t, key);
  }

  lemma SectionCases(py: Python, d: Items, e: Items, key: string)
    requires Get(d, key) == Get(e, key)
    ensures Get(NormalItems(py, d), key) == Get(NormalItems(py, e), key)
  {
    SectionsDecide(py, d, e);
    FollowLookup(Normalized(py, d), Normalized(py, e), d, e, key);
  }

  lemma NormalizerIsSectionWise(py: Python)
    ensures SectionWise(Normalizer(py))
  {
    forall d: Items, e: Items, key | Get(d, key) == Get(e, key)
      ensures Get(NormalItems(py, d), key) == Get(NormalItems(py, e), key)
    {
      SectionCases(py, d, e, key);
    }
  }

  // What posting and reading the real settings promise.
  lemma PostedSettingsAreRead(py: Python, settings: Items, data: Json, refused: seq<Json>)
    requires Refusal(data).None? && forall i :: 0 <= i < |refused| ==> Refusal(refused[i]).Some?
    ensures var normalize := Normalizer(py);
            var stored := Posted(normalize, settings, data);
            Answer(normalize, settings, data) == Done(stored)
            && normalize(AfterPosts(normalize, stored, refused)) == stored
  {
    NormalizerIsIdempotent(py);
    AnswerIsStoredAndRead(Normalizer(py), settings, data, refused);
  }

  lemma UnnamedSettingsStay(py: Python, settings: Items, posts: seq<Json>, key: string)
    requires forall i :: 0 <= i < |posts| ==> Distinct(Update(posts[i])) && Get(Update(posts[i]), key).None?
    ensures var normalize := Normalizer(py);
            Get(normalize(AfterPosts(normalize, settings, posts)), key) == Get(normalize(settings), key)
  {
    NormalizerIsIdempotent(py);
    NormalizerIsSectionWise(py);
    UnnamedSectionsStay(Normalizer(py), settings, posts, key);
  }

  // ------------------------------------------------------------- where values come from

  // What a profile leaves open it takes from the global defaults.
  lemma EmptyProfileIsGlobal(py: Python, waypoint: Waypoint, timer: Timer)
    requires GoodWaypoint(waypoint) && GoodTimer(timer)
    ensures WaypointOf(py, [], waypoint) == waypoint && TimerOf(py, [], timer) == timer
  {
    WordsArePlain();
    WordIsPlain(py, timer.target);
    StripStrips(timer.nodeId);
  }

  lemma WaypointProfileReads(py: Python, d: Items, id: string, i: nat)
    requires var raw := Sub(Sub(d, "waypoints"), "profile_defaults");
             IsProfileId(id) && Sets(py, raw, i, id) && forall j :: i < j < |raw| ==> !Sets(py, raw, j, id)
    ensures Get(Normalized(py, d).waypointProfiles, id)
            == Some(WaypointOf(py, Sub(Sub(d, "waypoints"), "profile_defaults")[i].value.items,
                               Normalized(py, d).waypoint))
  {
    var waypoint := WaypointOf(py, Sub(d, "waypoints"), WAYPOINT);
    LastEntryCounts(py, r => WaypointOf(py, r, waypoint), Sub(Sub(d, "waypoints"), "profile_defaults"), id, i);
  }

  lemma TimerProfileReads(py: Python, d: Items, id: string, i: nat)
    requires var raw := Sub(Sub(d, "timers"), "profile_defaults");
             IsProfileId(id) && Sets(py, raw, i, id) && forall j :: i < j < |raw| ==> !Sets(py, raw, j, id)
    ensures Get(Normalized(py, d).timerProfiles, id)
            == Some(TimerOf(py, Sub(Sub(d, "timers"), "profile_defaults")[i].value.items, Normalized(py, d).timer))
  {
    var timer := TimerOf(py, Sub(d, "timers"), TIMER);
    LastEntryCounts(py, r => TimerOf(py, r, timer), Sub(Sub(d, "timers"), "profile_defaults"), id, i);
  }

  // Coordinates of the old flat form count where there are no manual ones.
  lemma FlatCoordinates(py: Python, d: Items, latitude: real, longitude: real)
    requires Get(d, "latitude") == Some(Float(latitude)) && Get(d, "longitude") == Some(Float(longitude))
    requires -90.0 <= latitude <= 90.0 && -180.0 <= longitude <= 180.0
    ensures Get(Sub(d, "manual"), "latitude").None? ==> PlaceOf(py, d).latitude == Some(latitude)
    ensures Get(Sub(d, "manual"), "longitude").None? ==> PlaceOf(py, d).longitude == Some(longitude)
    ensures Get(Sub(d, "manual"), "latitude") == Some(Null) ==> PlaceOf(py, d).latitude.None?
    ensures Get(Sub(d, "manual"), "longitude") == Some(Null) ==> PlaceOf(py, d).longitude.None?
  {}

  // ------------------------------------------------------- posting allowed settings

  // The written sections, but for the per-profile defaults, which are given.
  lemma MergedSection(base: Items, update: Items, i: nat)
    requires SameKeys(base, update) && Distinct(update) && i < |update|
    ensures Get(Merged(base, update), update[i].key) == Some(Both(base[i].value, update[i].value))
  {
    MergeSameKeys(base, update);
    var merged := Merged(base, update);
    assert forall j, k :: 0 <= j < k < |merged| ==> merged[j].key == update[j].key && update[j].key != update[k].key;
    GetAt(merged, i);
  }

  lemma FlatSectionsMerge(s: Normal, t: Normal)
    ensures Merged(UnitsItems(s.units), UnitsItems(t.units)) == UnitsItems(t.units)
    ensures Merged(BatteryItems(s.batteryMah), BatteryItems(t.batteryMah)) == BatteryItems(t.batteryMah)
    ensures Merged(RecoveryItems(s.recovery), RecoveryItems(t.recovery)) == RecoveryItems(t.recovery)
    ensures Merged(ProviderItems(s.maps), ProviderItems(t.maps)) == ProviderItems(t.maps)
  {
    MergeReplaces(UnitsItems(s.units), UnitsItems(t.units));
    MergeReplaces(BatteryItems(s.batteryMah), BatteryItems(t.batteryMah));
    MergeReplaces(RecoveryItems(s.recovery), RecoveryItems(t.recovery));
    MergeReplaces(ProviderItems(s.maps), ProviderItems(t.maps));
  }

  lemma MoreFlatSectionsMerge(s: Normal, t: Normal)
    ensures Merged(RadioItems(s.radio), RadioItems(t.radio)) == RadioItems(t.radio)
    ensures Merged(ProviderItems(s.weather), ProviderItems(t.weather)) == ProviderItems(t.weather)
    ensures Merged(UpdatesItems(s.updates), UpdatesItems(t.updates)) == UpdatesItems(t.updates)
  {
    MergeReplaces(RadioItems(s.radio), RadioItems(t.radio));
    MergeReplaces(ProviderItems(s.weather), ProviderItems(t.weather));
    MergeReplaces(UpdatesItems(s.updates), UpdatesItems(t.updates));
  }

  lemma PlaceMerges(p: Place, q: Place)
    ensures Merged(PlaceItems(p), PlaceItems(q)) == PlaceItems(q)
  {
    MergeReplaces(ManualItems(p), ManualItems(q));
    MergeReplacesAll(PlaceItems(p), PlaceItems(q));
  }

  lemma NotificationsMerge(m: Notifications, n: Notifications)
    ensures Merged(NotificationsItems(m), NotificationsItems(n)) == NotificationsItems(n)
  {
    MergeReplaces(CategoryItems(m), CategoryItems(n));
    MergeReplacesAll(NotificationsItems(m), NotificationsItems(n));
  }

  // Flat items with the per-profile defaults behind them.
  function WithProfiles(flat: Items, profiles: Items): Items {
    flat + [Item("profile_defaults", Dict(profiles))]
  }

  lemma ProfilesMerge(a: Items, b: Items, p: Items, q: Items)
    requires SameKeys(a, b) && forall i :: 0 <= i < |b| ==> !b[i].value.Dict?
    requires Distinct(WithProfiles(b, q))
    ensures Merged(WithProfiles(a, p), WithProfiles(b, q)) == WithProfiles(b, Merged(p, q))
  {
    var base, update := WithProfiles(a, p), WithProfiles(b, q);
    MergeSameKeys(base, update);
    var merged := Merged(base, update);
    forall i | 0 <= i < |update| ensures merged[i] == WithProfiles(b, Merged(p, q))[i] {
      if i < |b| { assert update[i] == b[i]; }
    }
  }

  lemma MergedSettingsHold(s: Normal, t: Normal, i: nat)
    requires i < 12
    ensures Get(Merged(Written(s), Written(t)), KEYS[i]) == Some(Both(Written(s)[i].value, Written(t)[i].value))
  {
    WrittenUnderKeys(s);
    WrittenUnderKeys(t);
    MergedSection(Written(s), Written(t), i);
  }

  // Sections without profiles come out of the merge as posted.
  lemma FrontSectionsMerge(s: Normal, t: Normal, i: nat)
    requires i < 5
    ensures Both(Written(s)[i].value, Written(t)[i].value) == Written(t)[i].value
  {
    FlatSectionsMerge(s, t);
  }

  lemma BackSectionsMerge(s: Normal, t: Normal, i: nat)
    requires 5 <= i < 12 && i != 8 && i != 9
    ensures Both(Written(s)[i].value, Written(t)[i].value) == Written(t)[i].value
  {
    MoreFlatSectionsMerge(s, t);
    PlaceMerges(s.place, t.place);
    NotificationsMerge(s.notifications, t.notifications);
  }

  lemma PlainSectionsMerge(s: Normal, t: Normal, i: nat)
    requires i < 12 && i != 8 && i != 9
    ensures Both(Written(s)[i].value, Written(t)[i].value) == Written(t)[i].value
  {
    if i < 5 { FrontSectionsMerge(s, t, i); } else { BackSectionsMerge(s, t, i); }
  }

  function MergedProfiles<T>(write: T -> Items, p: seq<Item<T>>, q: seq<Item<T>>): Items {
    Merged(Objects(write, p), Objects(write, q))
  }

  lemma ProfileSections(s: Normal)
    ensures KEYS[8] == "waypoints" && KEYS[9] == "timers"
    ensures Written(s)[8].value
            == Dict(WithProfiles(WaypointItems(s.waypoint), Objects(WaypointItems, s.waypointProfiles)))
    ensures Written(s)[9].value == Dict(WithProfiles(TimerItems(s.timer), Objects(TimerItems, s.timerProfiles)))
  {}

  lemma SectionWithProfiles(s: Normal, t: Normal, i: nat, a: Items, b: Items, p: Items, q: Items)
    requires i < 12 && Written(s)[i].value == Dict(WithProfiles(a, p))
    requires Written(t)[i].value == Dict(WithProfiles(b, q))
    requires SameKeys(a, b) && (forall j :: 0 <= j < |b| ==> !b[j].value.Dict?) && Distinct(WithProfiles(b, q))
    ensures Get(Merged(Written(s), Written(t)), KEYS[i]) == Some(Dict(WithProfiles(b, Merged(p, q))))
  {
    MergedSettingsHold(s, t, i);
    ProfilesMerge(a, b, p, q);
  }

  lemma WaypointSectionMerges(s: Normal, t: Normal)
    ensures Get(Merged(Written(s), Written(t)), "waypoints")
            == Some(Dict(WithProfiles(WaypointItems(t.waypoint),
                                      MergedProfiles(WaypointItems, s.waypointProfiles, t.waypointProfiles))))
  {
    ProfileSections(s);
    ProfileSections(t);
    WaypointKeys(t.waypoint, Objects(WaypointItems, t.waypointProfiles));
    SectionWithProfiles(s, t, 8, WaypointItems(s.waypoint), WaypointItems(t.waypoint),
                        Objects(WaypointItems, s.waypointProfiles), Objects(WaypointItems, t.waypointProfiles));
  }

  lemma TimerKeys(t: Timer, q: Items)
    ensures Distinct(WithProfiles(TimerItems(t), q))
  {}

  lemma WaypointKeys(w: Waypoint, q: Items)
    ensures Distinct(WithProfiles(WaypointItems(w), q))
  {}

  lemma TimerSectionMerges(s: Normal, t: Normal)
    ensures Get(Merged(Written(s), Written(t)), "timers")
            == Some(Dict(WithProfiles(TimerItems(t.timer),
                                      MergedProfiles(TimerItems, s.timerProfiles, t.timerProfiles))))
  {
    ProfileSections(s);
    ProfileSections(t);
    TimerKeys(t.timer, Objects(TimerItems, t.timerProfiles));
    SectionWithProfiles(s, t, 9, TimerItems(s.timer), TimerItems(t.timer),
                        Objects(TimerItems, s.timerProfiles), Objects(TimerItems, t.timerProfiles));
  }

  // Equal in everything but the per-profile defaults.
  predicate SameButProfiles(r: Normal, t: Normal) {
    r.(waypointProfiles := t.waypointProfiles, timerProfiles := t.timerProfiles) == t
  }

  lemma SameFields(r: Normal, t: Normal)
    requires forall i: nat :: i < 12 && i != 8 && i != 9 ==> SameSection(r, t, i)
    requires r.waypoint == t.waypoint && r.timer == t.timer
    ensures SameButProfiles(r, t)
  {
    assert SameSection(r, t, 0) && SameSection(r, t, 1) && SameSection(r, t, 2) && SameSection(r, t, 3);
    assert SameSection(r, t, 4) && SameSection(r, t, 5) && SameSection(r, t, 6) && SameSection(r, t, 7);
    assert SameSection(r, t, 10) && SameSection(r, t, 11);
  }

  lemma ScalarsFixed(py: Python, d: Items, t: Normal, w: Items, m: Items)
    requires GoodWaypoint(t.waypoint) && GoodTimer(t.timer)
    requires Sub(d, "waypoints") == WithProfiles(WaypointItems(t.waypoint), w)
    requires Sub(d, "timers") == WithProfiles(TimerItems(t.timer), m)
    ensures Normalized(py, d).waypoint == t.waypoint && Normalized(py, d).timer == t.timer
  {
    WaypointFixed(py, t.waypoint, WAYPOINT, [Item("profile_defaults", Dict(w))]);
    TimerFixed(py, t.timer, TIMER, [Item("profile_defaults", Dict(m))]);
  }

  lemma MergedNormalizes(py: Python, s: Normal, t: Normal)
    requires Good(t)
    ensures SameButProfiles(Normalized(py, Merged(Written(s), Written(t))), t)
  {
    var d, e := Merged(Written(s), Written(t)), Written(t);
    WaypointSectionMerges(s, t);
    TimerSectionMerges(s, t);
    ScalarsFixed(py, d, t, MergedProfiles(WaypointItems, s.waypointProfiles, t.waypointProfiles),
                 MergedProfiles(TimerItems, s.timerProfiles, t.timerProfiles));
    GoodIsFixed(py, t);
    SectionsDecide(py, d, e);
    WrittenUnderKeys(t);
    forall i: nat | i < 12 && i != 8 && i != 9 ensures SameSection(Normalized(py, d), Normalized(py, e), i) {
      MergedSettingsHold(s, t, i);
      PlainSectionsMerge(s, t, i);
      GetAt(e, i);
      FollowAt(Normalized(py, d), Normalized(py, e), d, e, i);
    }
    SameFields(Normalized(py, d), t);
  }

  // ------------------------------------------------------------ per-profile defaults

  // Entries a normalizer wrote: ids that clean to themselves, over dictionaries.
  predicate Entries(raw: Items) {
    Distinct(raw) && forall item :: item in raw ==> IsProfileId(item.key) && item.value.Dict?
  }

  lemma {:induction false} ObjectsAt<T>(write: T -> Items, profiles: seq<Item<T>>)
    ensures |Objects(write, profiles)| == |profiles|
    ensures forall i :: 0 <= i < |profiles| ==>
              Objects(write, profiles)[i] == Item(profiles[i].key, Dict(write(profiles[i].value)))
  {
    if profiles != [] { ObjectsAt(write, profiles[..|profiles| - 1]); }
  }

  function Mapped<T>(write: T -> Items, found: Option<T>): Option<Json> {
    if found.Some? then Some(Dict(write(found.value))) else None
  }

  lemma {:induction false} ObjectsLookup<T>(write: T -> Items, profiles: seq<Item<T>>, id: string)
    ensures Get(Objects(write, profiles), id) == Mapped(write, Get(profiles, id))
  {
    if profiles != [] {
      var n := |profiles| - 1;
      ObjectsAt(write, profiles);
      ObjectsLookup(write, profiles[..n], id);
      GetOfFront(profiles, id);
      GetOfFront(Objects(write, profiles), id);
      assert Objects(write, profiles)[..n] == Objects(write, profiles[..n]);
    }
  }

  lemma ObjectsAreEntries<T(!new)>(write: T -> Items, profiles: seq<Item<T>>, good: T -> bool)
    requires GoodProfiles(profiles, good)
    ensures Entries(Objects(write, profiles))
  {
    ObjectsAt(write, profiles);
    var raw := Objects(write, profiles);
    forall item | item in raw ensures IsProfileId(item.key) && item.value.Dict? {
      var i :| 0 <= i < |raw| && raw[i] == item;
      assert profiles[i] in profiles;
    }
  }

  lemma {:induction false} MergeKeepsEntries(base: Items, updates: Items, n: nat)
    requires Entries(base) && Entries(updates) && n <= |updates|
    ensures Entries(Merged(base, updates[..n]))
  {
    if n > 0 {
      MergeKeepsEntries(base, updates, n - 1);
      assert updates[..n][..n - 1] == updates[..n - 1] && updates[n - 1] in updates;
      var merged, last := Merged(base, updates[..n - 1]), updates[n - 1];
      var found := Get(merged, last.key);
      KeysOfPut(merged, last.key, if found.Some? && found.value.Dict? then
                                    Dict(Merged(found.value.items, last.value.items)) else last.value);
    }
  }

  lemma EntriesLookup<T>(py: Python, read: Items -> T, raw: Items, id: string)
    requires Entries(raw)
    ensures Get(raw, id).Some? ==> Get(raw, id).value.Dict?
    ensures Get(Profiles(py, read, raw), id)
            == if Get(raw, id).Some? then Some(read(Get(raw, id).value.items)) else None
  {
    forall i: nat | i < |raw| ensures ProfileId(py, raw[i].key) == raw[i].key && raw[i].value.Dict? {
      assert raw[i] in raw;
      WordIsPlain(py, raw[i].key);
    }
    Absent(raw, id);
    if i :| 0 <= i < |raw| && raw[i].key == id {
      assert raw[i] in raw;
      GetAt(raw, i);
      LastEntryCounts(py, read, raw, id, i);
    } else {
      UnnamedProfileIsAbsent(py, read, raw, id);
    }
  }

  lemma MergedProfilesLookup<T(!new)>(write: T -> Items, good: T -> bool, p: seq<Item<T>>, q: seq<Item<T>>, id: string)
    requires GoodProfiles(p, good) && GoodProfiles(q, good)
    ensures Entries(MergedProfiles(write, p, q))
    ensures Get(MergedProfiles(write, p, q), id) == MergedValue(Mapped(write, Get(p, id)), Mapped(write, Get(q, id)))
  {
    var a, b := Objects(write, p), Objects(write, q);
    ObjectsAreEntries(write, p, good);
    ObjectsAreEntries(write, q, good);
    MergeKeepsEntries(a, b, |b|);
    assert b[..|b|] == b;
    MergeLooksUp(a, b, id);
    ObjectsLookup(write, p, id);
    ObjectsLookup(write, q, id);
  }

  // Per profile: what the update says, else what was stored.
  lemma ProfilesAfterMerge<T(!new)>(py: Python, read: Items -> T, write: T -> Items, good: T -> bool,
                                    p: seq<Item<T>>, q: seq<Item<T>>, id: string)
    requires GoodProfiles(p, good) && GoodProfiles(q, good)
    requires forall v :: good(v) ==> read(write(v)) == v
    requires forall v, w :: Merged(write(v), write(w)) == write(w)
    ensures Get(Profiles(py, read, MergedProfiles(write, p, q)), id)
            == if Get(q, id).Some? then Get(q, id) else Get(p, id)
  {
    MergedProfilesLookup(write, good, p, q, id);
    EntriesLookup(py, read, MergedProfiles(write, p, q), id);
    FoundIsGood(p, good, id);
    FoundIsGood(q, good, id);
  }

  lemma {:induction false} FoundIsGood<T(!new)>(profiles: seq<Item<T>>, good: T -> bool, id: string)
    requires forall p :: p in profiles ==> good(p.value)
    ensures Get(profiles, id).Some? ==> good(Get(profiles, id).value)
  {
    if profiles != [] {
      assert profiles[0] in profiles;
      FoundIsGood(profiles[1..], good, id);
    }
  }

  lemma WaypointProfilesLaw(py: Python, fallback: Waypoint, p: seq<Item<Waypoint>>, q: seq<Item<Waypoint>>, id: string)
    requires GoodProfiles(p, v => GoodWaypoint(v)) && GoodProfiles(q, v => GoodWaypoint(v))
    ensures Get(Profiles(py, r => WaypointOf(py, r, fallback), MergedProfiles(WaypointItems, p, q)), id)
            == if Get(q, id).Some? then Get(q, id) else Get(p, id)
  {
    forall v | GoodWaypoint(v) ensures WaypointOf(py, WaypointItems(v), fallback) == v {
      WaypointFixed(py, v, fallback, []);
      assert WaypointItems(v) + [] == WaypointItems(v);
    }
    forall v, w ensures Merged(WaypointItems(v), WaypointItems(w)) == WaypointItems(w) {
      MergeReplaces(WaypointItems(v), WaypointItems(w));
    }
    ProfilesAfterMerge(py, r => WaypointOf(py, r, fallback), WaypointItems, v => GoodWaypoint(v), p, q, id);
  }

  lemma WaypointProfilesOf(py: Python, d: Items, t: Normal, profiles: Items)
    requires GoodWaypoint(t.waypoint) && Sub(d, "waypoints") == WithProfiles(WaypointItems(t.waypoint), profiles)
    ensures Normalized(py, d).waypointProfiles == Profiles(py, r => WaypointOf(py, r, t.waypoint), profiles)
  {
    Absent(WaypointItems(t.waypoint), "profile_defaults");
    ProfilesUnder(WaypointItems(t.waypoint), profiles);
    WaypointFixed(py, t.waypoint, WAYPOINT, [Item("profile_defaults", Dict(profiles))]);
  }

  lemma TimerProfilesLaw(py: Python, fallback: Timer, p: seq<Item<Timer>>, q: seq<Item<Timer>>, id: string)
    requires GoodProfiles(p, v => GoodTimer(v)) && GoodProfiles(q, v => GoodTimer(v))
    ensures Get(Profiles(py, r => TimerOf(py, r, fallback), MergedProfiles(TimerItems, p, q)), id)
            == if Get(q, id).Some? then Get(q, id) else Get(p, id)
  {
    forall v | GoodTimer(v) ensures TimerOf(py, TimerItems(v), fallback) == v {
      TimerFixed(py, v, fallback, []);
      assert TimerItems(v) + [] == TimerItems(v);
    }
    forall v, w ensures Merged(TimerItems(v), TimerItems(w)) == TimerItems(w) {
      MergeReplaces(TimerItems(v), TimerItems(w));
    }
    ProfilesAfterMerge(py, r => TimerOf(py, r, fallback), TimerItems, v => GoodTimer(v), p, q, id);
  }

  lemma TimerProfilesOf(py: Python, d: Items, t: Normal, profiles: Items)
    requires GoodTimer(t.timer) && Sub(d, "timers") == WithProfiles(TimerItems(t.timer), profiles)
    ensures Normalized(py, d).timerProfiles == Profiles(py, r => TimerOf(py, r, t.timer), profiles)
  {
    Absent(TimerItems(t.timer), "profile_defaults");
    ProfilesUnder(TimerItems(t.timer), profiles);
    TimerFixed(py, t.timer, TIMER, [Item("profile_defaults", Dict(profiles))]);
  }

  // After posting allowed settings every profile they name holds what they say, and
  // every other one what it held before.
  lemma PostedWaypointProfiles(py: Python, s: Normal, t: Normal, id: string)
    requires Good(s) && Good(t)
    ensures Get(Normalized(py, Merged(Written(s), Written(t))).waypointProfiles, id)
            == if Get(t.waypointProfiles, id).Some? then Get(t.waypointProfiles, id) else Get(s.waypointProfiles, id)
  {
    WaypointSectionMerges(s, t);
    WaypointProfilesOf(py, Merged(Written(s), Written(t)), t,
                       MergedProfiles(WaypointItems, s.waypointProfiles, t.waypointProfiles));
    WaypointProfilesLaw(py, t.waypoint, s.waypointProfiles, t.waypointProfiles, id);
  }

  lemma PostedTimerProfiles(py: Python, s: Normal, t: Normal, id: string)
    requires Good(s) && Good(t)
    ensures Get(Normalized(py, Merged(Written(s), Written(t))).timerProfiles, id)
            == if Get(t.timerProfiles, id).Some? then Get(t.timerProfiles, id) else Get(s.timerProfiles, id)
  {
    TimerSectionMerges(s, t);
    TimerProfilesOf(py, Merged(Written(s), Written(t)), t,
                    MergedProfiles(TimerItems, s.timerProfiles, t.timerProfiles));
    TimerProfilesLaw(py, t.timer, s.timerProfiles, t.timerProfiles, id);
  }

  lemma ProfilesUnder(flat: Items, profiles: Items)
    requires Get(flat, "profile_defaults").None?
    ensures Sub(WithProfiles(flat, profiles), "profile_defaults") == profiles
  {
    GetOfFront(WithProfiles(flat, profiles), "profile_defaults");
    assert WithProfiles(flat, profiles)[..|flat|] == flat;
  }

  lemma NoSettingsKey(t: Normal)
    ensures Get(Written(t), "settings").None?
  {
    WrittenUnderKeys(t);
    Absent(Written(t), "settings");
  }

  function OrElse<T>(a: Option<T>, b: Option<T>): Option<T> {
    if a.Some? then a else b
  }

  // t laid over s: t everywhere, with the profiles only s has.
  ghost predicate LaidOver(r: Normal, s: Normal, t: Normal) {
    && Good(r) && SameButProfiles(r, t)
    && (forall id :: Get(r.waypointProfiles, id) == OrElse(Get(t.waypointProfiles, id), Get(s.waypointProfiles, id)))
    && forall id :: Get(r.timerProfiles, id) == OrElse(Get(t.timerProfiles, id), Get(s.timerProfiles, id))
  }

  // Posting allowed settings: whatever was stored before, those laid over it are what
  // is answered, stored and read from then on.
  lemma PostedSettingsAreStored(py: Python, settings: Items, t: Normal)
    requires Good(t)
    ensures Refusal(Dict(Written(t))).None?
    ensures exists r :: LaidOver(r, Normalized(py, settings), t)
                        && Answer(Normalizer(py), settings, Dict(Written(t))) == Done(Written(r))
                        && Posted(Normalizer(py), settings, Dict(Written(t))) == Written(r)
  {
    var data := Dict(Written(t));
    NoSettingsKey(t);
    UpdateOfBody(data);
    var s := Normalized(py, settings);
    var r := Normalized(py, Merged(Written(s), Written(t)));
    MergedIsLaidOver(py, settings, s, t, r);
    PostedSettingsAreRead(py, settings, data, []);
    PostedIs(py, settings, t, s, r);
  }

  lemma MergedIsLaidOver(py: Python, settings: Items, s: Normal, t: Normal, r: Normal)
    requires Good(t) && s == Normalized(py, settings) && r == Normalized(py, Merged(Written(s), Written(t)))
    ensures LaidOver(r, s, t)
  {
    NormalizedIsGood(py, settings);
    NormalizedIsGood(py, Merged(Written(s), Written(t)));
    MergedNormalizes(py, s, t);
    forall id
      ensures Get(r.waypointProfiles, id) == OrElse(Get(t.waypointProfiles, id), Get(s.waypointProfiles, id))
      ensures Get(r.timerProfiles, id) == OrElse(Get(t.timerProfiles, id), Get(s.timerProfiles, id))
    {
      PostedWaypointProfiles(py, s, t, id);
      PostedTimerProfiles(py, s, t, id);
    }
  }

  lemma PostedIs(py: Python, settings: Items, t: Normal, s: Normal, r: Normal)
    requires s == Normalized(py, settings) && r == Normalized(py, Merged(Written(s), Written(t)))
    requires Refusal(Dict(Written(t))).None? && Update(Dict(Written(t))) == Written(t)
    ensures Posted(Normalizer(py), settings, Dict(Written(t))) == Written(r)
  {
    assert Normalizer(py)(settings) == Written(s);
    assert Normalizer(py)(Merged(Written(s), Written(t))) == Written(r);
  }

  // ------------------------------------------------------------------------- restart

  // units.get(key, default) if that is an allowed word, else the default.
  function Kept(j: Option<Json>, default: string, allowed: seq<string>): Json {
    var value := Or(j, Str(default));
    if value.Str? && value.text in allowed then value else Str(default)
  }

  function LoadedUnits(units: Items): Items {
    [Item("temperature", Kept(Get(units, "temperature"), "c", TEMPERATURES)),
     Item("pressure", Kept(Get(units, "pressure"), "hpa", PRESSURES)),
     Item("wind", Kept(Get(units, "wind"), "ms", WINDS))]
  }

  // What load_settings makes of a stored object; none where int() raises.
  function Loaded(py: Python, data: Items): Option<Items> {
    var recovery := Sub(data, "listener_autorecovery");
    var delay := Whole(py, Or(Get(recovery, "delay"), Int(60)));
    if delay.None? then None
    else
      Some(Put(Put(Put(data,
                       "units", Dict(LoadedUnits(Sub(data, "units")))),
                   "listener_autorecovery",
                   Dict(RecoveryItems(Recovery(Flag(Get(recovery, "enabled"), false), delay.value)))),
               "power", Dict(BatteryItems(BatteryOf(py, Sub(data, "power"))))))
  }

  function Three(u: Units): Items {
    [Item("temperature", Str(u.temperature)), Item("pressure", Str(u.pressure)), Item("wind", Str(u.wind))]
  }

  lemma PutThree(d: Items, units: Json, recovery: Json, power: Json, key: string)
    ensures Get(Put(Put(Put(d, "units", units), "listener_autorecovery", recovery), "power", power), key)
            == if key == "power" then Some(power)
               else if key == "listener_autorecovery" then Some(recovery)
               else if key == "units" then Some(units)
               else Get(d, key)
  {
    GetOfPut(d, "units", units, key);
    GetOfPut(Put(d, "units", units), "listener_autorecovery", recovery, key);
    GetOfPut(Put(Put(d, "units", units), "listener_autorecovery", recovery), "power", power, key);
  }

  lemma ThreeUnits(py: Python, u: Units)
    requires GoodUnits(u)
    ensures UnitsOf(py, Three(u)) == u.(timeFormat := "24")
  {
    UnitsFixed(py, u);
    var d, full := Three(u), UnitsItems(u);
    GetEach(d);
    GetEach(full);
    assert full[0].key == d[0].key == "temperature" && full[1].key == d[1].key == "pressure";
    assert full[2].key == d[2].key == "wind";
    Absent(d, "time_format");
    WordsArePlain();
    DefaultsAreAllowed();
    ChoiceOfWord(py, "24", "24", TIME_FORMATS, "24");
  }

  lemma UnitsKept(u: Units)
    requires GoodUnits(u)
    ensures LoadedUnits(UnitsItems(u)) == Three(u)
  {
    var d := UnitsItems(u);
    GetEach(d);
    assert d[0].key == "temperature" && d[1].key == "pressure" && d[2].key == "wind";
  }

  lemma LoadedSections(py: Python, d: Items, recovery: Recovery, mah: int, key: string)
    requires Get(d, "listener_autorecovery") == Some(Dict(RecoveryItems(recovery)))
    requires Get(d, "power") == Some(Dict(BatteryItems(mah))) && 100 <= mah <= 50000
    ensures Loaded(py, d).Some?
    ensures Get(Loaded(py, d).value, key)
            == if key == "units" then Some(Dict(LoadedUnits(Sub(d, "units")))) else Get(d, key)
  {
    var r := RecoveryItems(recovery);
    GetEach(r);
    assert r[0].key == "enabled" && r[1].key == "delay";
    NumbersFixed(py, mah, Recovery(recovery.enabled, 60), Updates(true, 300));
    PutThree(d, Dict(LoadedUnits(Sub(d, "units"))), Dict(RecoveryItems(recovery)), Dict(BatteryItems(mah)), key);
  }

  // All sections but the units.
  predicate OthersSame(d: Items, e: Items) {
    && Same(d, e, "language") && Same(d, e, "power") && Same(d, e, "listener_autorecovery") && Same(d, e, "maps")
    && Same(d, e, "meshtastic") && Same(d, e, "weather") && Same(d, e, "reference_location")
    && Same(d, e, "waypoints") && Same(d, e, "timers") && Same(d, e, "updates") && Same(d, e, "browser_notifications")
  }

  lemma FollowOthers(s: Normal, t: Normal, d: Items, e: Items)
    requires Follow(s, t, d, e) && OthersSame(d, e)
    ensures s == t.(units := s.units)
  {}

  lemma OthersSameBut(d: Items, e: Items)
    requires forall key :: key != "units" ==> Same(d, e, key)
    ensures OthersSame(d, e)
  {}

  lemma LoadedSame(py: Python, d: Items, recovery: Recovery, mah: int)
    requires Get(d, "listener_autorecovery") == Some(Dict(RecoveryItems(recovery)))
    requires Get(d, "power") == Some(Dict(BatteryItems(mah))) && 100 <= mah <= 50000
    ensures Loaded(py, d).Some?
    ensures OthersSame(Loaded(py, d).value, d)
    ensures Sub(Loaded(py, d).value, "units") == LoadedUnits(Sub(d, "units"))
  {
    LoadedSections(py, d, recovery, mah, "units");
    var e := Loaded(py, d).value;
    forall key | key != "units" ensures Same(e, d, key) {
      LoadedSections(py, d, recovery, mah, key);
    }
    OthersSameBut(e, d);
  }

  lemma ClockOnly(py: Python, s: Normal, d: Items, e: Items)
    requires Normalized(py, d) == s && GoodUnits(s.units)
    requires OthersSame(e, d) && Sub(e, "units") == Three(s.units)
    ensures Normalized(py, e) == s.(units := s.units.(timeFormat := "24"))
  {
    ThreeUnits(py, s.units);
    SectionsDecide(py, e, d);
    FollowOthers(Normalized(py, e), s, e, d);
  }

  lemma PowerAndRecoveryHold(s: Normal)
    ensures Get(Written(s), "power") == Some(Dict(BatteryItems(s.batteryMah)))
    ensures Get(Written(s), "listener_autorecovery") == Some(Dict(RecoveryItems(s.recovery)))
  {
    WrittenKeys(s);
    GetEach(Written(s));
    assert Written(s)[2].key == "power" && Written(s)[3].key == "listener_autorecovery";
  }

  // A restart gives back the stored settings, but always with the 24-hour clock.
  lemma RestartForgetsClock(py: Python, s: Normal)
    requires Good(s)
    ensures Loaded(py, Written(s)).Some?
    ensures Normalized(py, Loaded(py, Written(s)).value) == s.(units := s.units.(timeFormat := "24"))
    ensures Normalized(py, Loaded(py, Written(s)).value) == s <==> s.units.timeFormat == "24"
  {
    GoodIsFixed(py, s);
    PowerAndRecoveryHold(s);
    SectionsHold(s);
    Reloaded(py, s, Written(s));
  }

  lemma Reloaded(py: Python, s: Normal, d: Items)
    requires Good(s) && Normalized(py, d) == s
    requires Get(d, "listener_autorecovery") == Some(Dict(RecoveryItems(s.recovery)))
    requires Get(d, "power") == Some(Dict(BatteryItems(s.batteryMah))) && Sub(d, "units") == UnitsItems(s.units)
    ensures Loaded(py, d).Some?
    ensures Normalized(py, Loaded(py, d).value) == s.(units := s.units.(timeFormat := "24"))
  {
    LoadedSame(py, d, s.recovery, s.batteryMah);
    var e := Loaded(py, d).value;
    UnitsKept(s.units);
    ClockOnly(py, s, d, e);
  }
}
