/** The identity of one installation (meshsrv/instance_manager.py and
  meshsrv/installation_identity.py): normalized on every load and save, its
  installation id minted once and then carried along. */
module Instance {
  import opened Prelude
  import opened PyText
  import opened JsonValue

  // ------------------------------------------------------------- installation ids

  type Byte = b: nat | b < 256
  type Entropy = e: seq<Byte> | |e| == 10 witness [0, 0, 0, 0, 0, 0, 0, 0, 0, 0]

  const DIGITS := "0123456789ABCDEF"

  predicate IsUpperHex(c: char) {
    '0' <= c <= '9' || 'A' <= c <= 'F'
  }

  // MC1 and five groups of four digits: MC1-XXXX-XXXX-XXXX-XXXX-XXXX
  predicate IsValidId(id: string) {
    && |id| == 28 && id[..3] == "MC1"
    && forall i :: 3 <= i < 28 ==> if i % 5 == 3 then id[i] == '-' else IsUpperHex(id[i])
  }

  // secrets.token_hex(10).upper()
  function HexText(e: Entropy): string {
    seq(20, i requires 0 <= i < 20 => DIGITS[if i % 2 == 0 then e[i / 2] / 16 else e[i / 2] % 16])
  }

  function Joined(hex: string): string
    requires |hex| % 4 == 0
  {
    if hex == "" then "" else "-" + hex[..4] + Joined(hex[4..])
  }

  function GeneratedId(e: Entropy): string {
    "MC1" + Joined(HexText(e))
  }

  lemma {:induction false} JoinedGroups(hex: string)
    requires |hex| % 4 == 0 && forall i :: 0 <= i < |hex| ==> IsUpperHex(hex[i])
    ensures |Joined(hex)| == |hex| / 4 * 5
    ensures forall i :: 0 <= i < |Joined(hex)| ==>
              if i % 5 == 0 then Joined(hex)[i] == '-' else IsUpperHex(Joined(hex)[i])
  {
    if hex != "" {
      JoinedGroups(hex[4..]);
      var rest := Joined(hex[4..]);
      forall i | 5 <= i < |Joined(hex)|
        ensures if i % 5 == 0 then Joined(hex)[i] == '-' else IsUpperHex(Joined(hex)[i])
      {
        assert Joined(hex)[i] == rest[i - 5] && i % 5 == (i - 5) % 5;
      }
    }
  }

  lemma UpperHexDigit(n: nat)
    requires n < 16
    ensures IsUpperHex(DIGITS[n])
  {}

  // Every id that can be minted has the accepted form.
  lemma GeneratedIsValid(e: Entropy)
    ensures IsValidId(GeneratedId(e)) && Stripped(GeneratedId(e))
  {
    var hex := HexText(e);
    forall i | 0 <= i < 20 ensures IsUpperHex(hex[i]) {
      UpperHexDigit(if i % 2 == 0 then e[i / 2] / 16 else e[i / 2] % 16);
    }
    JoinedGroups(hex);
    var id := GeneratedId(e);
    forall i | 3 <= i < 28 ensures id[i] == Joined(hex)[i - 3] && ((i - 3) % 5 == 0 <==> i % 5 == 3) {}
    assert id[..3] == "MC1";
  }

  // ---------------------------------------------------------------------- identity

  datatype Radio = Radio(nodeId: string, longName: string, shortName: string, hardware: string, role: string,
                         port: string, firmware: string)
  datatype Runtime = Runtime(cliPath: string, detectedAt: Option<string>, status: string, lastError: Option<string>,
                             detected: Radio)
  datatype Installation = Installation(id: string, assignedAt: Option<string>, timeSource: string, reason: string)
  datatype Identity = Identity(name: string, hostname: string, profileId: string, radio: Radio, runtime: Runtime,
                               installation: Installation)

  // What one call meets: the machine's name, fresh entropy, and whether the file can
  // be read and written just then.
  datatype Env = Env(host: string, entropy: Entropy, readable: bool, writable: bool)

  // _text: str(value or "").strip()
  type Reader = Option<Json> -> string

  function ReaderOf(py: Python): Reader {
    j => CleanOrEmpty(py, j)
  }

  ghost predicate Cleans(read: Reader) {
    && (forall j :: Stripped(read(j)))
    && (forall t :: Stripped(t) ==> read(Some(Str(t))) == t)
    && read(None) == "" && read(Some(Null)) == ""
  }

  lemma ReaderCleans(py: Python)
    ensures Cleans(ReaderOf(py))
  {
    var read := ReaderOf(py);
    forall j ensures Stripped(read(j)) {
      if j.Some? && Truthy(j.value) { StripStrips(Text(py, j.value)); }
    }
    forall t | Stripped(t) ensures read(Some(Str(t))) == t { StripStrips(t); }
  }

  function TextAt(read: Reader, d: Items, key: string): string {
    read(Get(d, key))
  }

  function Else(text: string, otherwise: string): string {
    if text != "" then text else otherwise
  }

  function NonEmpty(text: string): Option<string> {
    if text == "" then None else Some(text)
  }

  function OrGet(j: Option<Json>, d: Items, key: string): Option<Json> {
    if j.Some? then j else Get(d, key)
  }

  function RadioOf(read: Reader, raw: Items, defaults: Items): Radio {
    var n, c, d := Sub(raw, "radio"), Sub(raw, "configured"), Sub(defaults, "radio");
    Radio(
      Else(TextAt(read, n, "node_id"),
           Else(TextAt(read, raw, "node_id"), Else(TextAt(read, c, "node_id"), TextAt(read, d, "node_id")))),
      Else(TextAt(read, n, "long_name"),
           Else(TextAt(read, raw, "long_name"), Else(TextAt(read, c, "long_name"), TextAt(read, d, "long_name")))),
      Else(TextAt(read, n, "short_name"), Else(TextAt(read, raw, "short_name"), TextAt(read, d, "short_name"))),
      Else(TextAt(read, n, "hardware"), Else(TextAt(read, raw, "hardware"), TextAt(read, d, "hardware"))),
      Else(TextAt(read, n, "role"), Else(TextAt(read, raw, "role"), TextAt(read, d, "role"))),
      Else(TextAt(read, n, "port"),
           Else(TextAt(read, n, "serial_port"), Else(TextAt(read, raw, "serial_port"), TextAt(read, d, "port")))),
      Else(TextAt(read, n, "firmware_version"),
           Else(TextAt(read, raw, "firmware_version"), TextAt(read, d, "firmware_version"))))
  }

  function DetectedOf(read: Reader, d: Items): Radio {
    Radio(TextAt(read, d, "node_id"), TextAt(read, d, "long_name"), TextAt(read, d, "short_name"),
          TextAt(read, d, "hardware"), TextAt(read, d, "role"), TextAt(read, d, "port"),
          TextAt(read, d, "firmware_version"))
  }

  // The nested dictionary if there is one, else the default's.
  function DetectedItems(n: Items, d: Items): Items {
    var found := Get(n, "last_detected_radio");
    if found.Some? && found.value.Dict? then found.value.items else Sub(d, "last_detected_radio")
  }

  function RuntimeOf(read: Reader, raw: Items, defaults: Items): Runtime {
    var n, d := Sub(raw, "runtime"), Sub(defaults, "runtime");
    Runtime(
      Else(TextAt(read, n, "cli_path"), Else(TextAt(read, raw, "cli_path"), TextAt(read, d, "cli_path"))),
      NonEmpty(read(OrGet(OrGet(Get(n, "last_detected_at"), raw, "last_detected_at"), d, "last_detected_at"))),
      Else(TextAt(read, n, "identity_status"),
           Else(TextAt(read, raw, "identity_status"), Else(TextAt(read, d, "identity_status"), "NOT_CHECKED"))),
      NonEmpty(Else(TextAt(read, n, "last_error"),
                    Else(TextAt(read, raw, "last_error"), TextAt(read, d, "last_error")))),
      DetectedOf(read, DetectedItems(n, d)))
  }

  function IdOf(read: Reader, d: Items): string {
    TextAt(read, Sub(d, "installation"), "id")
  }

  function InstallationOf(read: Reader, env: Env, raw: Items, defaults: Items): Installation {
    var n, d := Sub(raw, "installation"), Sub(defaults, "installation");
    var id := Else(TextAt(read, n, "id"), TextAt(read, d, "id"));
    var origin := if raw != [] then "migration" else "fresh_install";
    if IsValidId(id) then
      Installation(id,
        NonEmpty(read(OrGet(Get(n, "assigned_at"), d, "assigned_at"))),
        Else(TextAt(read, n, "time_source"), Else(TextAt(read, d, "time_source"), "pending")),
        Else(TextAt(read, n, "assignment_reason"), Else(TextAt(read, d, "assignment_reason"), origin)))
    else Installation(GeneratedId(env.entropy), None, "pending", origin)
  }

  function DefaultName(hostname: string): string {
    if Strip(hostname) != "" then "MeshCenter " + Strip(hostname) else "MeshCenter"
  }

  function HostOf(read: Reader, env: Env, raw: Items, defaults: Items): string {
    Else(TextAt(read, raw, "hostname"), Else(TextAt(read, defaults, "hostname"), env.host))
  }

  function Normalized(read: Reader, env: Env, raw: Items, defaults: Items): Identity {
    var hostname := HostOf(read, env, raw, defaults);
    Identity(
      Else(TextAt(read, raw, "instance_name"), Else(TextAt(read, defaults, "instance_name"), DefaultName(hostname))),
      hostname,
      Else(TextAt(read, raw, "active_profile_id"), TextAt(read, defaults, "active_profile_id")),
      RadioOf(read, raw, defaults), RuntimeOf(read, raw, defaults), InstallationOf(read, env, raw, defaults))
  }

  // ----------------------------------------------------------------------- as JSON

  function RadioItems(r: Radio): Items {
    [Item("node_id", Str(r.nodeId)), Item("long_name", Str(r.longName)), Item("short_name", Str(r.shortName)),
     Item("hardware", Str(r.hardware)), Item("role", Str(r.role)), Item("port", Str(r.port)),
     Item("firmware_version", Str(r.firmware))]
  }

  function TextOrNull(text: Option<string>): Json {
    if text.Some? then Str(text.value) else Null
  }

  function RuntimeItems(r: Runtime): Items {
    [Item("cli_path", Str(r.cliPath)), Item("last_detected_at", TextOrNull(r.detectedAt)),
     Item("identity_status", Str(r.status)), Item("last_error", TextOrNull(r.lastError)),
     Item("last_detected_radio", Dict(RadioItems(r.detected)))]
  }

  function InstallationItems(i: Installation): Items {
    [Item("id", Str(i.id)), Item("assigned_at", TextOrNull(i.assignedAt)), Item("time_source", Str(i.timeSource)),
     Item("assignment_reason", Str(i.reason))]
  }

  function Written(i: Identity): Items {
    [Item("schema_version", Int(2)), Item("instance_name", Str(i.name)), Item("hostname", Str(i.hostname)),
     Item("active_profile_id", Str(i.profileId)), Item("radio", Dict(RadioItems(i.radio))),
     Item("runtime", Dict(RuntimeItems(i.runtime))), Item("installation", Dict(InstallationItems(i.installation)))]
  }

  // ------------------------------------------------------------------- normal form

  ghost predicate CleanRadio(r: Radio) {
    && Stripped(r.nodeId) && Stripped(r.longName) && Stripped(r.shortName) && Stripped(r.hardware) && Stripped(r.role)
    && Stripped(r.port) && Stripped(r.firmware)
  }

  ghost predicate CleanText(t: Option<string>) {
    t.Some? ==> t.value != "" && Stripped(t.value)
  }

  ghost predicate CleanRuntime(r: Runtime) {
    && Stripped(r.cliPath) && CleanText(r.detectedAt) && r.status != "" && Stripped(r.status) && CleanText(r.lastError)
    && CleanRadio(r.detected)
  }

  ghost predicate CleanInstallation(i: Installation) {
    && IsValidId(i.id) && Stripped(i.id) && CleanText(i.assignedAt) && i.timeSource != "" && Stripped(i.timeSource)
    && i.reason != "" && Stripped(i.reason)
  }

  ghost predicate Clean(i: Identity) {
    && i.name != "" && Stripped(i.name) && Stripped(i.profileId)
    && CleanRadio(i.radio) && CleanRuntime(i.runtime) && CleanInstallation(i.installation)
  }

  // Where the identity has no text, the defaults have none either.
  predicate EmptyToo(read: Reader, text: string, defaults: Items, key: string) {
    text == "" ==> TextAt(read, defaults, key) == ""
  }

  predicate RadioCovers(read: Reader, r: Radio, d: Items) {
    && EmptyToo(read, r.nodeId, d, "node_id") && EmptyToo(read, r.longName, d, "long_name")
    && EmptyToo(read, r.shortName, d, "short_name") && EmptyToo(read, r.hardware, d, "hardware")
    && EmptyToo(read, r.role, d, "role") && EmptyToo(read, r.port, d, "port")
    && EmptyToo(read, r.firmware, d, "firmware_version")
  }

  predicate RuntimeCovers(read: Reader, r: Runtime, d: Items) {
    EmptyToo(read, r.cliPath, d, "cli_path") && (r.lastError.None? ==> TextAt(read, d, "last_error") == "")
  }

  predicate Covers(read: Reader, i: Identity, defaults: Items) {
    && EmptyToo(read, i.profileId, defaults, "active_profile_id")
    && EmptyToo(read, read(Some(Str(i.hostname))), defaults, "hostname")
    && RadioCovers(read, i.radio, Sub(defaults, "radio"))
    && RuntimeCovers(read, i.runtime, Sub(defaults, "runtime"))
  }

  lemma RadioIsClean(read: Reader, raw: Items, defaults: Items)
    requires Cleans(read)
    ensures CleanRadio(RadioOf(read, raw, defaults))
    ensures RadioCovers(read, RadioOf(read, raw, defaults), Sub(defaults, "radio"))
  {
  }

  lemma DetectedIsClean(read: Reader, d: Items)
    requires Cleans(read)
    ensures CleanRadio(DetectedOf(read, d))
  {
  }

  lemma RuntimeIsClean(read: Reader, raw: Items, defaults: Items)
    requires Cleans(read)
    ensures CleanRuntime(RuntimeOf(read, raw, defaults))
    ensures RuntimeCovers(read, RuntimeOf(read, raw, defaults), Sub(defaults, "runtime"))
  {
    DetectedIsClean(read, DetectedItems(Sub(raw, "runtime"), Sub(defaults, "runtime")));
  }

  lemma InstallationIsClean(read: Reader, env: Env, raw: Items, defaults: Items)
    requires Cleans(read)
    ensures CleanInstallation(InstallationOf(read, env, raw, defaults))
  {
    GeneratedIsValid(env.entropy);
    InstallationWords();
  }

  lemma InstallationWords()
    ensures Stripped("pending") && Stripped("migration") && Stripped("fresh_install")
  {}

  lemma DefaultNameIsClean(hostname: string)
    ensures DefaultName(hostname) != "" && Stripped(DefaultName(hostname))
  {
    StripStrips(hostname);
    var clean := Strip(hostname);
    if clean != "" {
      assert ("MeshCenter " + clean)[|"MeshCenter " + clean| - 1] == clean[|clean| - 1];
    }
  }

  lemma NormalizedIsClean(read: Reader, env: Env, raw: Items, defaults: Items)
    requires Cleans(read)
    ensures Clean(Normalized(read, env, raw, defaults))
    ensures Covers(read, Normalized(read, env, raw, defaults), defaults)
  {
    NamesAreClean(read, env, raw, defaults);
    RadioIsClean(read, raw, defaults);
    RuntimeIsClean(read, raw, defaults);
    InstallationIsClean(read, env, raw, defaults);
    HostCovers(read, env, raw, defaults);
  }

  lemma NamesAreClean(read: Reader, env: Env, raw: Items, defaults: Items)
    requires Cleans(read)
    ensures var name := Else(TextAt(read, raw, "instance_name"),
                             Else(TextAt(read, defaults, "instance_name"),
                                  DefaultName(HostOf(read, env, raw, defaults))));
            name != "" && Stripped(name)
  {
    DefaultNameIsClean(HostOf(read, env, raw, defaults));
  }

  lemma HostCovers(read: Reader, env: Env, raw: Items, defaults: Items)
    requires Cleans(read)
    ensures EmptyToo(read, read(Some(Str(HostOf(read, env, raw, defaults)))), defaults, "hostname")
  {
  }

  // ------------------------------------------------------------- normalizing again

  // Keys the old flat form used; the written form has none of them.
  predicate NoFlatKeys(raw: Items) {
    && Get(raw, "node_id").None? && Get(raw, "long_name").None? && Get(raw, "short_name").None?
    && Get(raw, "hardware").None? && Get(raw, "role").None? && Get(raw, "serial_port").None?
    && Get(raw, "firmware_version").None? && Get(raw, "configured").None? && Get(raw, "cli_path").None?
    && Get(raw, "identity_status").None? && Get(raw, "last_error").None?
  }

  // d is the written form of i.
  predicate Spells(d: Items, i: Identity) {
    && NoFlatKeys(d) && Get(d, "instance_name") == Some(Str(i.name)) && Get(d, "hostname") == Some(Str(i.hostname))
    && Get(d, "active_profile_id") == Some(Str(i.profileId)) && Sub(d, "radio") == RadioItems(i.radio)
    && Sub(d, "runtime") == RuntimeItems(i.runtime) && Sub(d, "installation") == InstallationItems(i.installation)
  }

  lemma RadioHolds(r: Radio)
    ensures var d := RadioItems(r);
            && Get(d, "node_id") == Some(Str(r.nodeId)) && Get(d, "long_name") == Some(Str(r.longName))
            && Get(d, "short_name") == Some(Str(r.shortName)) && Get(d, "hardware") == Some(Str(r.hardware))
            && Get(d, "role") == Some(Str(r.role)) && Get(d, "port") == Some(Str(r.port))
            && Get(d, "firmware_version") == Some(Str(r.firmware)) && Get(d, "serial_port").None?
  {
    var d := RadioItems(r);
    GetEach(d);
    assert d[0].key == "node_id" && d[1].key == "long_name" && d[2].key == "short_name" && d[3].key == "hardware";
    assert d[4].key == "role" && d[5].key == "port" && d[6].key == "firmware_version";
    Absent(d, "serial_port");
  }

  lemma RadioTexts(read: Reader, r: Radio)
    requires Cleans(read)
    requires CleanRadio(r)
    ensures var d := RadioItems(r);
            && TextAt(read, d, "node_id") == r.nodeId && TextAt(read, d, "long_name") == r.longName
            && TextAt(read, d, "short_name") == r.shortName && TextAt(read, d, "hardware") == r.hardware
            && TextAt(read, d, "role") == r.role && TextAt(read, d, "port") == r.port
            && TextAt(read, d, "firmware_version") == r.firmware && TextAt(read, d, "serial_port") == ""
  {
    RadioHolds(r);
  }

  lemma RadioAgain(read: Reader, i: Identity, d: Items, defaults: Items)
    requires Cleans(read) && Clean(i) && Covers(read, i, defaults) && Spells(d, i)
    ensures RadioOf(read, d, defaults) == i.radio
  {
    RadioTexts(read, i.radio);
  }

  lemma RuntimeHolds(r: Runtime)
    ensures var d := RuntimeItems(r);
            && Get(d, "cli_path") == Some(Str(r.cliPath))
            && Get(d, "last_detected_at") == Some(TextOrNull(r.detectedAt))
            && Get(d, "identity_status") == Some(Str(r.status)) && Get(d, "last_error") == Some(TextOrNull(r.lastError))
            && Get(d, "last_detected_radio") == Some(Dict(RadioItems(r.detected)))
  {
    var d := RuntimeItems(r);
    GetEach(d);
    assert d[0].key == "cli_path" && d[1].key == "last_detected_at" && d[2].key == "identity_status";
    assert d[3].key == "last_error" && d[4].key == "last_detected_radio";
  }

  lemma TextOrNullAgain(read: Reader, t: Option<string>)
    requires Cleans(read)
    requires CleanText(t)
    ensures NonEmpty(read(Some(TextOrNull(t)))) == t
  {}

  lemma RuntimeAgain(read: Reader, i: Identity, d: Items, defaults: Items)
    requires Cleans(read) && Clean(i) && Covers(read, i, defaults) && Spells(d, i)
    ensures RuntimeOf(read, d, defaults) == i.runtime
  {
    var r := i.runtime;
    RuntimeHolds(r);
    TextOrNullAgain(read, r.detectedAt);
    TextOrNullAgain(read, r.lastError);
    RadioTexts(read, r.detected);
  }

  lemma InstallationHolds(i: Installation)
    ensures var d := InstallationItems(i);
            && Get(d, "id") == Some(Str(i.id)) && Get(d, "assigned_at") == Some(TextOrNull(i.assignedAt))
            && Get(d, "time_source") == Some(Str(i.timeSource)) && Get(d, "assignment_reason") == Some(Str(i.reason))
  {
    var d := InstallationItems(i);
    GetEach(d);
    assert d[0].key == "id" && d[1].key == "assigned_at" && d[2].key == "time_source";
    assert d[3].key == "assignment_reason";
  }

  lemma InstallationAgain(read: Reader, env: Env, i: Identity, d: Items, defaults: Items)
    requires Cleans(read) && Clean(i) && Spells(d, i)
    ensures InstallationOf(read, env, d, defaults) == i.installation
  {
    InstallationHolds(i.installation);
    TextOrNullAgain(read, i.installation.assignedAt);
  }

  lemma WrittenHolds(i: Identity)
    ensures var d := Written(i);
            && Get(d, "instance_name") == Some(Str(i.name)) && Get(d, "hostname") == Some(Str(i.hostname))
            && Get(d, "active_profile_id") == Some(Str(i.profileId)) && Sub(d, "radio") == RadioItems(i.radio)
            && Sub(d, "runtime") == RuntimeItems(i.runtime)
            && Sub(d, "installation") == InstallationItems(i.installation)
  {
    var d := Written(i);
    GetEach(d);
    assert d[1].key == "instance_name" && d[2].key == "hostname" && d[3].key == "active_profile_id";
    assert d[4].key == "radio" && d[5].key == "runtime" && d[6].key == "installation";
  }

  lemma WrittenKeys(i: Identity)
    ensures var d := Written(i);
            |d| == 7 && d[0].key == "schema_version" && d[1].key == "instance_name" && d[2].key == "hostname"
            && d[3].key == "active_profile_id" && d[4].key == "radio" && d[5].key == "runtime"
            && d[6].key == "installation"
  {}

  lemma LacksRadioKeys(i: Identity)
    ensures var d := Written(i);
            && Get(d, "node_id").None? && Get(d, "long_name").None? && Get(d, "short_name").None?
            && Get(d, "hardware").None? && Get(d, "role").None? && Get(d, "serial_port").None?
  {
    var d := Written(i);
    WrittenKeys(i);
    Absent(d, "node_id");
    Absent(d, "long_name");
    Absent(d, "short_name");
    Absent(d, "hardware");
    Absent(d, "role");
    Absent(d, "serial_port");
  }

  lemma LacksOtherKeys(i: Identity)
    ensures var d := Written(i);
            && Get(d, "firmware_version").None? && Get(d, "configured").None? && Get(d, "cli_path").None?
            && Get(d, "identity_status").None? && Get(d, "last_error").None?
  {
    var d := Written(i);
    WrittenKeys(i);
    Absent(d, "firmware_version");
    Absent(d, "configured");
    Absent(d, "cli_path");
    Absent(d, "identity_status");
    Absent(d, "last_error");
  }

  lemma WrittenSpells(i: Identity)
    ensures Spells(Written(i), i)
  {
    LacksRadioKeys(i);
    LacksOtherKeys(i);
    WrittenHolds(i);
  }

  lemma HostAgain(read: Reader, env: Env, hostname: string, d: Items, defaults: Items)
    requires Get(d, "hostname") == Some(Str(hostname))
    requires EmptyToo(read, read(Some(Str(hostname))), defaults, "hostname")
    ensures HostOf(read, env, d, defaults) == Else(read(Some(Str(hostname))), env.host)
  {
    assert TextAt(read, d, "hostname") == read(Some(Str(hostname)));
  }

  lemma NamesAgain(read: Reader, i: Identity, d: Items, defaults: Items)
    requires Cleans(read) && Clean(i) && Covers(read, i, defaults) && Spells(d, i)
    ensures TextAt(read, d, "instance_name") == i.name
    ensures Else(TextAt(read, d, "active_profile_id"), TextAt(read, defaults, "active_profile_id")) == i.profileId
  {}

  lemma ReadsBack(read: Reader, env: Env, i: Identity, d: Items, defaults: Items)
    requires Cleans(read) && Clean(i) && Covers(read, i, defaults) && Spells(d, i)
    ensures Normalized(read, env, d, defaults) == i.(hostname := Else(read(Some(Str(i.hostname))), env.host))
  {
    HostAgain(read, env, i.hostname, d, defaults);
    NamesAgain(read, i, d, defaults);
    RadioAgain(read, i, d, defaults);
    RuntimeAgain(read, i, d, defaults);
    InstallationAgain(read, env, i, d, defaults);
  }

  // ------------------------------------------------------------------- the manager

  datatype Disk = Missing | Unreadable | Holding(json: Json)

  datatype State = State(file: Disk, data: Items)

  function RawOf(file: Disk): Items {
    if file.Holding? && file.json.Dict? then file.json.items else []
  }

  predicate Differs(file: Disk, i: Identity) {
    file.Missing? || !Equal(Dict(RawOf(file)), Dict(Written(i)))
  }

  // What a load sees: a file that is there but cannot be opened or read just then is
  // taken for one without content.
  function Seen(file: Disk, env: Env): Disk {
    if env.readable || file.Missing? then file else Unreadable
  }

  function Stored(s: State, i: Identity, rewrite: bool, writable: bool): State {
    if rewrite && !writable then s
    else State(if rewrite then Holding(Dict(Written(i))) else s.file, Written(i))
  }

  function Loading(read: Reader, s: State, env: Env, defaults: Items): Identity {
    Normalized(read, env, RawOf(Seen(s.file, env)), defaults)
  }

  predicate LoadWrites(read: Reader, s: State, env: Env, defaults: Items) {
    Differs(Seen(s.file, env), Loading(read, s, env, defaults))
  }

  function Loaded(read: Reader, s: State, env: Env, defaults: Items): State {
    var i := Loading(read, s, env, defaults);
    Stored(s, i, Differs(Seen(s.file, env), i), env.writable)
  }

  function Saved(read: Reader, s: State, env: Env, data: Items): State {
    Stored(s, Normalized(read, env, data, s.data), true, env.writable)
  }

  class InstanceManager {
    const read: Reader
    var file: Disk
    var data: Items

    ghost function Now(): State
      reads this
    {
      State(file, data)
    }

    constructor (py: Python, file: Disk)
      ensures read == ReaderOf(py) && Cleans(read) && Now() == State(file, [])
    {
      read := ReaderOf(py);
      this.file := file;
      this.data := [];
      new;
      ReaderCleans(py);
    }

    // Writes the file if it must and takes on the identity, or does neither.
    method Store(i: Identity, rewrite: bool, writable: bool) returns (stored: bool)
      modifies this
      ensures Now() == Stored(old(Now()), i, rewrite, writable) && stored == (rewrite ==> writable)
    {
      if rewrite {
        if !writable {
          return false;
        }
        file := Holding(Dict(Written(i)));
      }
      data := Written(i);
      return true;
    }

    // None where the identity cannot be saved and an error is raised.
    method LoadOrCreate(env: Env, defaults: Items) returns (identity: Option<Identity>)
      modifies this
      ensures Now() == Loaded(read, old(Now()), env, defaults)
      ensures identity == if LoadWrites(read, old(Now()), env, defaults) && !env.writable then None
                          else Some(Loading(read, old(Now()), env, defaults))
    {
      var seen := Seen(file, env);
      var normalized := Normalized(read, env, RawOf(seen), defaults);
      var stored := Store(normalized, Differs(seen, normalized), env.writable);
      identity := if stored then Some(normalized) else None;
    }

    method Save(env: Env, supplied: Items) returns (identity: Option<Identity>)
      modifies this
      ensures Now() == Saved(read, old(Now()), env, supplied)
      ensures identity == if env.writable then Some(Normalized(read, env, supplied, old(data))) else None
    {
      var normalized := Normalized(read, env, supplied, data);
      var stored := Store(normalized, true, env.writable);
      identity := if stored then Some(normalized) else None;
    }
  }

  // ------------------------------------------------------------- loading once more

  // The host name as the next load will read it.
  function NextHost(read: Reader, hostname: string, host: string): string {
    Else(read(Some(Str(hostname))), host)
  }

  predicate Settled(read: Reader, hostname: string, host: string) {
    NextHost(read, hostname, host) == hostname
  }

  // Normalizing what was normalized changes at most the host name ...
  lemma NormalizeAgain(read: Reader, first: Env, second: Env, raw: Items, defaults: Items)
    requires Cleans(read)
    ensures var i := Normalized(read, first, raw, defaults);
            Normalized(read, second, Written(i), defaults)
            == i.(hostname := NextHost(read, i.hostname, second.host))
  {
    var i := Normalized(read, first, raw, defaults);
    NormalizedIsClean(read, first, raw, defaults);
    WrittenSpells(i);
    ReadsBack(read, second, i, Written(i), defaults);
  }

  // ... so it is idempotent exactly when the host name reads back as itself.
  lemma IdempotentIff(read: Reader, first: Env, second: Env, raw: Items, defaults: Items)
    requires Cleans(read)
    ensures var i := Normalized(read, first, raw, defaults);
            Normalized(read, second, Written(i), defaults) == i <==> Settled(read, i.hostname, second.host)
  {
    NormalizeAgain(read, first, second, raw, defaults);
  }

  lemma TextsEqualThemselves(d: Items)
    requires Distinct(d) && forall i :: 0 <= i < |d| ==> !d[i].value.List? && !d[i].value.Dict?
    ensures Equal(Dict(d), Dict(d))
  {
    EqualsItself(d);
  }

  lemma RadioEqualsItself(r: Radio)
    ensures Equal(Dict(RadioItems(r)), Dict(RadioItems(r)))
  {
    TextsEqualThemselves(RadioItems(r));
  }

  lemma RuntimeEqualsItself(r: Runtime)
    ensures Equal(Dict(RuntimeItems(r)), Dict(RuntimeItems(r)))
  {
    RadioEqualsItself(r.detected);
    EqualsItself(RuntimeItems(r));
  }

  lemma WrittenEqualsItself(i: Identity)
    ensures Equal(Dict(Written(i)), Dict(Written(i)))
  {
    RadioEqualsItself(i.radio);
    RuntimeEqualsItself(i.runtime);
    TextsEqualThemselves(InstallationItems(i.installation));
    EqualsItself(Written(i));
  }

  // What a document equal to a written identity has in common with it.
  lemma EqualTexts(raw: Items, i: Identity)
    requires Equal(Dict(raw), Dict(Written(i)))
    ensures Get(raw, "hostname") == Some(Str(i.hostname))
    ensures Get(Sub(raw, "installation"), "id") == Some(Str(i.installation.id))
  {
    var d := Written(i);
    WrittenHolds(i);
    EqualLooksUp(raw, d, "hostname");
    EqualLooksUp(raw, d, "installation");
    InstallationHolds(i.installation);
    EqualLooksUp(Sub(raw, "installation"), InstallationItems(i.installation), "id");
  }

  // The host name a load arrives at is stripped, or the machine's own.
  lemma HostIsStrippedOrOwn(read: Reader, env: Env, raw: Items, defaults: Items)
    requires Cleans(read)
    ensures var h := HostOf(read, env, raw, defaults);
            (h != "" && read(Some(Str(h))) == h) || h == env.host
  {}

  // With a valid id in the file, entropy plays no part.
  lemma EntropyIsUnused(read: Reader, first: Env, second: Env, raw: Items, defaults: Items)
    requires first.host == second.host && IsValidId(IdOf(read, raw))
    ensures Normalized(read, first, raw, defaults) == Normalized(read, second, raw, defaults)
  {}

  lemma EqualStaysEqual(read: Reader, first: Env, second: Env, raw: Items, defaults: Items)
    requires Cleans(read) && first.host == second.host
    requires Equal(Dict(raw), Dict(Written(Normalized(read, first, raw, defaults))))
    ensures Normalized(read, second, raw, defaults) == Normalized(read, first, raw, defaults)
    ensures var hostname := Normalized(read, first, raw, defaults).hostname;
            NextHost(read, hostname, first.host) == hostname
  {
    EqualTexts(raw, Normalized(read, first, raw, defaults));
    NormalizedIsClean(read, first, raw, defaults);
    EntropyIsUnused(read, first, second, raw, defaults);
    HostIsStrippedOrOwn(read, first, raw, defaults);
  }

  // A document without content is never as it should be.
  lemma EmptyDiffers(i: Identity)
    ensures Differs(Unreadable, i)
  {}

  // What the next load reads is what the first one stored, or the same file again.
  lemma SecondRead(read: Reader, s: State, first: Env, second: Env, defaults: Items,
                   i: Identity, j: Identity, seen: Disk)
    requires Cleans(read) && first.host == second.host && second.readable && seen == Seen(s.file, first)
    requires i == Normalized(read, first, RawOf(seen), defaults) && (Differs(seen, i) ==> first.writable)
    requires j == Normalized(read, second, RawOf(Stored(s, i, Differs(seen, i), first.writable).file), defaults)
    ensures j == i.(hostname := NextHost(read, i.hostname, first.host))
    ensures !Differs(seen, i) ==> j == i && seen == s.file
  {
    EmptyDiffers(i);
    if Differs(seen, i) {
      NormalizeAgain(read, first, second, RawOf(seen), defaults);
    } else {
      EqualStaysEqual(read, first, second, RawOf(seen), defaults);
    }
  }

  lemma WrittenDiffersIff(i: Identity, hostname: string)
    ensures Equal(Dict(Written(i)), Dict(Written(i.(hostname := hostname)))) <==> hostname == i.hostname
  {
    WrittenEqualsItself(i);
    if Equal(Dict(Written(i)), Dict(Written(i.(hostname := hostname)))) {
      EqualTexts(Written(i), i.(hostname := hostname));
      WrittenHolds(i);
    }
  }

  lemma StoredDiffersIff(s: State, seen: Disk, i: Identity, writable: bool, hostname: string)
    requires Differs(seen, i) ==> writable
    requires !Differs(seen, i) ==> hostname == i.hostname && seen == s.file
    ensures Differs(Stored(s, i, Differs(seen, i), writable).file, i.(hostname := hostname)) <==> hostname != i.hostname
  {
    WrittenDiffersIff(i, hostname);
  }

  // After a load that succeeded, the next one on the same machine and defaults writes
  // exactly when it cannot read the file, or the host name has outer blanks that
  // stripping changes.
  lemma SecondLoadWritesIff(read: Reader, s: State, first: Env, second: Env, defaults: Items)
    requires Cleans(read) && first.host == second.host
    requires LoadWrites(read, s, first, defaults) ==> first.writable
    ensures LoadWrites(read, Loaded(read, s, first, defaults), second, defaults)
            <==> !second.readable || !Settled(read, Loading(read, s, first, defaults).hostname, first.host)
  {
    var i, seen := Loading(read, s, first, defaults), Seen(s.file, first);
    var t := Stored(s, i, Differs(seen, i), first.writable);
    var j := Loading(read, t, second, defaults);
    if second.readable {
      SecondRead(read, s, first, second, defaults, i, j, seen);
      StoredDiffersIff(s, seen, i, first.writable, NextHost(read, i.hostname, first.host));
    } else {
      EmptyDiffers(j);
    }
  }

  lemma SecondHost(read: Reader, s: State, first: Env, second: Env, defaults: Items)
    requires Cleans(read) && first.host == second.host && first.writable && second.readable
    ensures Loading(read, Loaded(read, s, first, defaults), second, defaults).hostname
            == NextHost(read, Loading(read, s, first, defaults).hostname, first.host)
  {
    var i, seen := Loading(read, s, first, defaults), Seen(s.file, first);
    var j := Loading(read, Stored(s, i, Differs(seen, i), first.writable), second, defaults);
    SecondRead(read, s, first, second, defaults, i, j, seen);
  }

  lemma NextHostSettles(read: Reader, hostname: string, host: string)
    requires Cleans(read) && ((hostname != "" && read(Some(Str(hostname))) == hostname) || hostname == host)
    ensures Settled(read, NextHost(read, hostname, host), host)
  {}

  // The host name of a load that reads nothing.
  function PlainHost(read: Reader, defaults: Items, host: string): string {
    Else(TextAt(read, defaults, "hostname"), host)
  }

  // Whatever the file held and whatever the machine is called, the third load writes
  // nothing if it and the second one can read the file.  Without that: it writes
  // exactly when it cannot read, or the second could not and the name it then took
  // has outer blanks.
  lemma ThirdLoadWritesIff(read: Reader, s: State, first: Env, second: Env, third: Env, defaults: Items)
    requires Cleans(read) && first.host == second.host == third.host && first.writable && second.writable
    ensures LoadWrites(read, Loaded(read, Loaded(read, s, first, defaults), second, defaults), third, defaults)
            <==> !third.readable
                 || (!second.readable && !Settled(read, PlainHost(read, defaults, first.host), first.host))
  {
    var once := Loaded(read, s, first, defaults);
    SecondLoadWritesIff(read, once, second, third, defaults);
    if second.readable {
      HostIsStrippedOrOwn(read, first, RawOf(Seen(s.file, first)), defaults);
      NextHostSettles(read, Loading(read, s, first, defaults).hostname, first.host);
      SecondHost(read, s, first, second, defaults);
    } else {
      LoadedIsThere(read, s, first, defaults);
      UnreadHost(read, once, second, defaults);
    }
  }

  lemma LoadedIsThere(read: Reader, s: State, env: Env, defaults: Items)
    requires env.writable
    ensures !Loaded(read, s, env, defaults).file.Missing?
  {}

  lemma UnreadHost(read: Reader, s: State, env: Env, defaults: Items)
    requires Cleans(read) && !env.readable && !s.file.Missing?
    ensures Loading(read, s, env, defaults).hostname == PlainHost(read, defaults, env.host)
  {
    assert Get(RawOf(Unreadable), "hostname") == None;
  }

  // ------------------------------------------------------------- the id over a run

  datatype Op = Load(defaults: Items) | Save(data: Items)

  function After(read: Reader, s: State, env: Env, op: Op): State {
    match op
    case Load(defaults) => Loaded(read, s, env, defaults)
    case Save(data) => Saved(read, s, env, data)
  }

  // A load has happened and left this id.
  ghost predicate Carries(read: Reader, s: State, id: string) {
    IsValidId(id) && IdOf(read, RawOf(s.file)) == id && IdOf(read, s.data) == id
  }

  // A load keeps the id if it can read the file, or its defaults bring the same id, or
  // it cannot write either; a save if its data omits or repeats the id or it cannot
  // write.
  predicate KeepsId(read: Reader, env: Env, op: Op, id: string) {
    match op
    case Load(defaults) => env.readable || IdOf(read, defaults) == id || !env.writable
    case Save(data) => IdOf(read, data) == "" || IdOf(read, data) == id || !env.writable
  }

  lemma IdOfWritten(read: Reader, i: Identity)
    requires Cleans(read) && Stripped(i.installation.id)
    ensures IdOf(read, Written(i)) == i.installation.id
  {
    WrittenHolds(i);
    InstallationHolds(i.installation);
  }

  // The id a normalization arrives at: the data's own if it has one, else the
  // defaults'; a fresh one if that has not the right form.
  lemma IdAfter(read: Reader, env: Env, raw: Items, defaults: Items)
    requires Cleans(read)
    ensures var given := Else(IdOf(read, raw), IdOf(read, defaults));
            var id := Normalized(read, env, raw, defaults).installation.id;
            id == (if IsValidId(given) then given else GeneratedId(env.entropy)) && IsValidId(id) && Stripped(id)
  {
    InstallationIsClean(read, env, raw, defaults);
  }

  lemma StoredCarries(read: Reader, s: State, i: Identity, rewrite: bool, writable: bool)
    requires Cleans(read) && IsValidId(i.installation.id) && Stripped(i.installation.id)
    requires rewrite ==> writable
    requires !rewrite ==> IdOf(read, RawOf(s.file)) == i.installation.id
    ensures Carries(read, Stored(s, i, rewrite, writable), i.installation.id)
  {
    IdOfWritten(read, i);
  }

  lemma FileHasId(read: Reader, file: Disk, i: Identity)
    requires Cleans(read) && !Differs(file, i) && Stripped(i.installation.id)
    ensures IdOf(read, RawOf(file)) == i.installation.id
  {
    EqualTexts(RawOf(file), i);
  }

  // The id a load arrives at: the one it reads, else the defaults', if valid.
  function LoadedId(read: Reader, s: State, env: Env, defaults: Items): string {
    var given := Else(IdOf(read, RawOf(Seen(s.file, env))), IdOf(read, defaults));
    if IsValidId(given) then given else GeneratedId(env.entropy)
  }

  // Any load that succeeds leaves a valid id, the same in the file and in memory: the
  // one it read if that was valid.
  lemma LoadCarries(read: Reader, s: State, env: Env, defaults: Items)
    requires Cleans(read) && (LoadWrites(read, s, env, defaults) ==> env.writable)
    ensures Carries(read, Loaded(read, s, env, defaults), LoadedId(read, s, env, defaults))
    ensures Loading(read, s, env, defaults).installation.id == LoadedId(read, s, env, defaults)
  {
    var i, seen := Loading(read, s, env, defaults), Seen(s.file, env);
    IdAfter(read, env, RawOf(seen), defaults);
    EmptyDiffers(i);
    if !Differs(seen, i) { FileHasId(read, seen, i); }
    StoredCarries(read, s, i, Differs(seen, i), env.writable);
  }

  // A load carries that id on or changes nothing; one that can neither read nor write
  // changes nothing.
  ghost predicate CarriesOn(read: Reader, s: State, t: State, env: Env, id: string) {
    && (Carries(read, t, id) || (t == s && !env.writable))
    && (!env.readable && !env.writable ==> t == s)
  }

  lemma LoadCarriesOn(read: Reader, s: State, env: Env, defaults: Items)
    requires Cleans(read)
    ensures CarriesOn(read, s, Loaded(read, s, env, defaults), env, LoadedId(read, s, env, defaults))
  {
    var i := Loading(read, s, env, defaults);
    EmptyDiffers(i);
    if Differs(Seen(s.file, env), i) ==> env.writable { LoadCarries(read, s, env, defaults); }
  }

  lemma SaveCarries(read: Reader, s: State, env: Env, data: Items)
    requires Cleans(read) && env.writable
    ensures var given := Else(IdOf(read, data), IdOf(read, s.data));
            Carries(read, Saved(read, s, env, data), if IsValidId(given) then given else GeneratedId(env.entropy))
  {
    IdAfter(read, env, data, s.data);
    StoredCarries(read, s, Normalized(read, env, data, s.data), true, true);
  }

  lemma NothingHasNoId(read: Reader)
    requires Cleans(read)
    ensures IdOf(read, []) == ""
  {}

  // What that means for an id already carried (fresh entropy never yields that one).
  lemma LoadKeeps(read: Reader, s: State, t: State, env: Env, defaults: Items, id: string)
    requires Cleans(read) && Carries(read, s, id) && CarriesOn(read, s, t, env, LoadedId(read, s, env, defaults))
    ensures KeepsId(read, env, Load(defaults), id) ==> Carries(read, t, id)
    ensures !KeepsId(read, env, Load(defaults), id) && GeneratedId(env.entropy) != id ==> !Carries(read, t, id)
  {
    NothingHasNoId(read);
  }

  lemma StepKeepsId(read: Reader, s: State, env: Env, op: Op, id: string)
    requires Cleans(read) && Carries(read, s, id) && KeepsId(read, env, op, id)
    ensures Carries(read, After(read, s, env, op), id)
  {
    match op
    case Load(defaults) =>
      LoadCarriesOn(read, s, env, defaults);
      LoadKeeps(read, s, Loaded(read, s, env, defaults), env, defaults, id);
    case Save(data) => if env.writable { SaveCarries(read, s, env, data); }
  }

  lemma StepLosesId(read: Reader, s: State, env: Env, op: Op, id: string)
    requires Cleans(read) && Carries(read, s, id) && !KeepsId(read, env, op, id) && GeneratedId(env.entropy) != id
    ensures !Carries(read, After(read, s, env, op), id)
  {
    match op
    case Load(defaults) =>
      LoadCarriesOn(read, s, env, defaults);
      LoadKeeps(read, s, Loaded(read, s, env, defaults), env, defaults, id);
    case Save(data) => SaveCarries(read, s, env, data);
  }

  // A load that can write keeps the id exactly when it can read the file or its
  // defaults bring the same id.
  lemma LoadKeepsIdIff(read: Reader, s: State, env: Env, defaults: Items, id: string)
    requires Cleans(read) && Carries(read, s, id) && env.writable && GeneratedId(env.entropy) != id
    ensures Carries(read, Loaded(read, s, env, defaults), id) <==> env.readable || IdOf(read, defaults) == id
  {
    if KeepsId(read, env, Load(defaults), id) {
      StepKeepsId(read, s, env, Load(defaults), id);
    } else {
      StepLosesId(read, s, env, Load(defaults), id);
    }
  }

  // A save that succeeds keeps the id exactly when its data omits or repeats it.
  lemma SaveKeepsIdIff(read: Reader, s: State, env: Env, data: Items, id: string)
    requires Cleans(read) && Carries(read, s, id) && env.writable && GeneratedId(env.entropy) != id
    ensures Carries(read, Saved(read, s, env, data), id) <==> IdOf(read, data) == "" || IdOf(read, data) == id
  {
    if KeepsId(read, env, Save(data), id) {
      StepKeepsId(read, s, env, Save(data), id);
    } else {
      StepLosesId(read, s, env, Save(data), id);
    }
  }

  // The id is carried at every point of a run.
  ghost predicate AlwaysCarries(read: Reader, s: State, run: seq<(Env, Op)>, id: string)
    decreases |run|
  {
    Carries(read, s, id) && (run == [] || AlwaysCarries(read, After(read, s, run[0].0, run[0].1), run[1..], id))
  }

  ghost predicate AllKeep(read: Reader, run: seq<(Env, Op)>, id: string) {
    forall k :: 0 <= k < |run| ==> KeepsId(read, run[k].0, run[k].1, id)
  }

  ghost predicate AllFresh(run: seq<(Env, Op)>, id: string) {
    forall k :: 0 <= k < |run| ==> GeneratedId(run[k].0.entropy) != id
  }

  lemma AllKeepCons(read: Reader, run: seq<(Env, Op)>, id: string)
    requires run != []
    ensures AllKeep(read, run, id) <==> KeepsId(read, run[0].0, run[0].1, id) && AllKeep(read, run[1..], id)
    ensures AllFresh(run, id) ==> GeneratedId(run[0].0.entropy) != id && AllFresh(run[1..], id)
  {
    assert run == [run[0]] + run[1..];
  }

  // Over every run of loads and saves, failures to read and to write included, a valid
  // id is carried throughout if and only if every load can read the file, brings the
  // id in its defaults or fails to write, and every save omits or repeats the id or
  // fails to write.
  lemma {:induction false} IdNeverRegeneratedIff(read: Reader, s: State, run: seq<(Env, Op)>, id: string)
    requires Cleans(read) && Carries(read, s, id) && AllFresh(run, id)
    ensures AlwaysCarries(read, s, run, id) <==> AllKeep(read, run, id)
    decreases |run|
  {
    if run != [] {
      var env, op := run[0].0, run[0].1;
      AllKeepCons(read, run, id);
      if KeepsId(read, env, op, id) {
        StepKeepsId(read, s, env, op, id);
        IdNeverRegeneratedIff(read, After(read, s, env, op), run[1..], id);
      } else {
        StepLosesId(read, s, env, op, id);
      }
    }
  }

  // A save before any load knows nothing of the file: it mints a new id over a
  // valid one.
  lemma SaveBeforeLoadReplacesId(read: Reader, file: Disk, env: Env)
    requires Cleans(read) && env.writable
    ensures IdOf(read, RawOf(Saved(read, State(file, []), env, []).file)) == GeneratedId(env.entropy)
  {
    IdAfter(read, env, [], []);
    IdOfWritten(read, Normalized(read, env, [], []));
  }

  // ------------------------------------------------------------------------- saving

  // Saving back what was loaded changes at most the host name.
  lemma SavingUnchangedDataKeepsIt(read: Reader, env: Env, i: Identity)
    requires Cleans(read) && Clean(i)
    ensures Normalized(read, env, Written(i), Written(i)) == i.(hostname := NextHost(read, i.hostname, env.host))
  {
    WrittenSpells(i);
    CoversItself(read, i);
    ReadsBack(read, env, i, Written(i), Written(i));
  }

  lemma CoversItself(read: Reader, i: Identity)
    requires Cleans(read) && Clean(i)
    ensures Covers(read, i, Written(i))
  {
    WrittenHolds(i);
    RadioTexts(read, i.radio);
    RuntimeHolds(i.runtime);
  }

  // A recorded error outlives every save that does not bring a new one: saving None
  // or blank text cannot clear it.
  lemma ErrorStays(read: Reader, env: Env, i: Identity, data: Items)
    requires Cleans(read) && Clean(i) && i.runtime.lastError.Some?
    ensures var after := Normalized(read, env, data, Written(i)).runtime.lastError;
            && after.Some?
            && (TextAt(read, Sub(data, "runtime"), "last_error") == "" == TextAt(read, data, "last_error") ==>
                  after == i.runtime.lastError)
  {
    WrittenHolds(i);
    RuntimeHolds(i.runtime);
    TextOrNullAgain(read, i.runtime.lastError);
  }

  // ----------------------------------------------------------------- older documents

  // The same identity in the old flat form.
  function FlatRadio(r: Radio): Items {
    [Item("node_id", Str(r.nodeId)), Item("long_name", Str(r.longName)), Item("short_name", Str(r.shortName)),
     Item("hardware", Str(r.hardware)), Item("role", Str(r.role)), Item("serial_port", Str(r.port)),
     Item("firmware_version", Str(r.firmware))]
  }

  function FlatRuntime(r: Runtime): Items {
    [Item("cli_path", Str(r.cliPath)), Item("last_detected_at", TextOrNull(r.detectedAt)),
     Item("identity_status", Str(r.status)), Item("last_error", TextOrNull(r.lastError))]
  }

  // Texts of a, and of b where a has none.
  function Overlaid(a: Radio, b: Radio): Radio {
    Radio(Else(a.nodeId, b.nodeId), Else(a.longName, b.longName), Else(a.shortName, b.shortName),
          Else(a.hardware, b.hardware), Else(a.role, b.role), Else(a.port, b.port), Else(a.firmware, b.firmware))
  }

  lemma FlatRadioHolds(r: Radio)
    ensures var d := FlatRadio(r);
            && Get(d, "node_id") == Some(Str(r.nodeId)) && Get(d, "long_name") == Some(Str(r.longName))
            && Get(d, "short_name") == Some(Str(r.shortName)) && Get(d, "hardware") == Some(Str(r.hardware))
            && Get(d, "role") == Some(Str(r.role)) && Get(d, "serial_port") == Some(Str(r.port))
            && Get(d, "firmware_version") == Some(Str(r.firmware))
            && Get(d, "radio").None? && Get(d, "configured").None?
  {
    var d := FlatRadio(r);
    GetEach(d);
    assert d[0].key == "node_id" && d[1].key == "long_name" && d[2].key == "short_name" && d[3].key == "hardware";
    assert d[4].key == "role" && d[5].key == "serial_port" && d[6].key == "firmware_version";
    Absent(d, "radio");
    Absent(d, "configured");
  }

  // The radio of a flat document is read field by field, over the defaults.
  lemma FlatRadioMigrates(read: Reader, r: Radio, defaults: Items)
    requires Cleans(read) && CleanRadio(r)
    ensures RadioOf(read, FlatRadio(r), defaults) == Overlaid(r, DetectedOf(read, Sub(defaults, "radio")))
  {
    FlatRadioHolds(r);
  }

  lemma FlatRuntimeHolds(r: Runtime)
    ensures var d := FlatRuntime(r);
            && Get(d, "cli_path") == Some(Str(r.cliPath))
            && Get(d, "last_detected_at") == Some(TextOrNull(r.detectedAt))
            && Get(d, "identity_status") == Some(Str(r.status)) && Get(d, "last_error") == Some(TextOrNull(r.lastError))
            && Get(d, "runtime").None?
  {
    var d := FlatRuntime(r);
    GetEach(d);
    assert d[0].key == "cli_path" && d[1].key == "last_detected_at";
    assert d[2].key == "identity_status" && d[3].key == "last_error";
    Absent(d, "runtime");
  }

  // So is what it says of the last run; what it does not know comes from the defaults.
  lemma FlatRuntimeMigrates(read: Reader, r: Runtime, defaults: Items)
    requires Cleans(read) && CleanRuntime(r)
    ensures var t, d := RuntimeOf(read, FlatRuntime(r), defaults), Sub(defaults, "runtime");
            && t.cliPath == Else(r.cliPath, TextAt(read, d, "cli_path")) && t.detectedAt == r.detectedAt
            && t.status == r.status
            && t.lastError == (if r.lastError.Some? then r.lastError else NonEmpty(TextAt(read, d, "last_error")))
            && t.detected == DetectedOf(read, Sub(d, "last_detected_radio"))
  {
    FlatRuntimeHolds(r);
    TextOrNullAgain(read, r.detectedAt);
    TextOrNullAgain(read, r.lastError);
  }

  // A nested radio comes before flat keys beside it.
  lemma NestedBeatsFlat(read: Reader, r: Radio, flat: Radio, defaults: Items)
    requires Cleans(read) && CleanRadio(r) && CleanRadio(flat)
    ensures RadioOf(read, [Item("radio", Dict(RadioItems(r)))] + FlatRadio(flat), defaults)
            == Overlaid(r, Overlaid(flat, DetectedOf(read, Sub(defaults, "radio"))))
  {
    var d, f := [Item("radio", Dict(RadioItems(r)))] + FlatRadio(flat), FlatRadio(flat);
    RadioTexts(read, r);
    FlatRadioHolds(flat);
    assert d[1..] == f;
    forall key | key != "radio" ensures Get(d, key) == Get(f, key) {}
  }

  // The names of an older "configured" block are used where nothing else has them.
  lemma ConfiguredNames(read: Reader, raw: Items, configured: Items, defaults: Items)
    requires Cleans(read) && Sub(raw, "configured") == configured
    requires forall key :: key != "configured" ==> Get(raw, key).None?
    ensures var r, d := RadioOf(read, raw, defaults), DetectedOf(read, Sub(defaults, "radio"));
            && r.nodeId == Else(TextAt(read, configured, "node_id"), d.nodeId)
            && r.longName == Else(TextAt(read, configured, "long_name"), d.longName)
            && r.(nodeId := d.nodeId, longName := d.longName) == d
  {
    assert Get(raw, "radio").None? && Get(raw, "node_id").None? && Get(raw, "long_name").None?;
    assert Get(raw, "short_name").None? && Get(raw, "hardware").None? && Get(raw, "role").None?;
    assert Get(raw, "serial_port").None? && Get(raw, "firmware_version").None?;
  }

  lemma ConfiguredBlock(read: Reader, configured: Items, defaults: Items)
    requires Cleans(read)
    ensures var r, d := RadioOf(read, [Item("configured", Dict(configured))], defaults),
                        DetectedOf(read, Sub(defaults, "radio"));
            && r.nodeId == Else(TextAt(read, configured, "node_id"), d.nodeId)
            && r.longName == Else(TextAt(read, configured, "long_name"), d.longName)
            && r.(nodeId := d.nodeId, longName := d.longName) == d
  {
    OnlyConfigured(Dict(configured));
    ConfiguredNames(read, [Item("configured", Dict(configured))], configured, defaults);
  }

  lemma OnlyConfigured(block: Json)
    ensures var raw := [Item("configured", block)];
            && Get(raw, "configured") == Some(block) && forall key :: key != "configured" ==> Get(raw, key).None?
  {
    var raw := [Item("configured", block)];
    forall key | key != "configured" ensures Get(raw, key).None? { Absent(raw, key); }
  }

  // A fresh installation: named after the machine, with a new id and nothing else.
  lemma FreshInstallation(read: Reader, env: Env)
    requires Cleans(read)
    ensures var i := Normalized(read, env, [], []);
            && i.hostname == env.host
            && i.name == (if Strip(env.host) != "" then "MeshCenter " + Strip(env.host) else "MeshCenter")
            && i.profileId == "" && i.radio == Radio("", "", "", "", "", "", "")
            && i.runtime == Runtime("", None, "NOT_CHECKED", None, i.radio)
            && i.installation == Installation(GeneratedId(env.entropy), None, "pending", "fresh_install")
  {}

  // A document without a valid id counts as a migration.
  lemma MigrationIsNoted(read: Reader, env: Env, raw: Items)
    requires Cleans(read) && raw != [] && !IsValidId(IdOf(read, raw))
    ensures Normalized(read, env, raw, []).installation
            == Installation(GeneratedId(env.entropy), None, "pending", "migration")
  {}
}
