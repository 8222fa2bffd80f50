/** Reading the daemon's settings: `load_config` of src/server.c. The C struct comes from an
    uninitialised allocation, so its former content `garbage` is a parameter. */
module DaemonConfig {
  import opened Options
  import opened Tokenizer
  import opened Lookup
  import opened ConfigText

  const MAX_DEVICES: nat := 8
  const MAX_NAME_LEN: nat := 64
  const MAX_IP_LEN: nat := 16
  const PORTS: nat := 0x1_0000

  // ---------------------------------------------------------------- atoi

  predicate IsDigit(c: char) { '0' <= c <= '9' }

  predicate IsBlank(c: char) { c == ' ' || '\t' <= c <= '\r' }

  function DigitsFrom(s: string, acc: nat): nat {
    if s == "" || !IsDigit(s[0]) then acc else DigitsFrom(s[1..], acc * 10 + (s[0] - '0') as nat)
  }

  /** The C library's `atoi`, for numbers in the range of `int`. */
  function Atoi(s: string): int {
    if s == "" then 0
    else if IsBlank(s[0]) then Atoi(s[1..])
    else if s[0] == '-' then -(DigitsFrom(s[1..], 0) as int)
    else if s[0] == '+' then DigitsFrom(s[1..], 0)
    else DigitsFrom(s, 0)
  }

  function Decimal(n: nat): string {
    (if n < 10 then "" else Decimal(n / 10)) + [(n % 10) as char + '0']
  }

  lemma {:induction false} DigitsConcat(a: string, b: string, acc: nat)
    requires forall j :: 0 <= j < |a| ==> IsDigit(a[j])
    ensures DigitsFrom(a + b, acc) == DigitsFrom(b, DigitsFrom(a, acc))
  {
    if a == "" {
      assert a + b == b;
    } else {
      assert (a + b)[1..] == a[1..] + b;
      DigitsConcat(a[1..], b, acc * 10 + (a[0] - '0') as nat);
    }
  }

  lemma {:induction false} DecimalDigits(n: nat)
    ensures Decimal(n) != "" && forall j :: 0 <= j < |Decimal(n)| ==> IsDigit(Decimal(n)[j])
    ensures DigitsFrom(Decimal(n), 0) == n
  {
    var last := [(n % 10) as char + '0'];
    if n < 10 {
      assert Decimal(n) == last;
    } else {
      DecimalDigits(n / 10);
      DigitsConcat(Decimal(n / 10), last, 0);
    }
    assert DigitsFrom(last, n / 10) == n by { assert last[1..] == ""; }
  }

  /** Printing a number and reading it with `atoi` gives the number back. */
  lemma AtoiOfDecimal(n: nat)
    ensures Atoi(Decimal(n)) == n
  {
    DecimalDigits(n);
    assert IsDigit(Decimal(n)[0]);
  }

  /** `atoi` in the text it reads: leading blanks, one sign, the digits, whatever comes after. */
  lemma {:induction false} AtoiReads(blanks: string, n: nat, rest: string)
    requires forall j :: 0 <= j < |blanks| ==> blanks[j] == ' ' || '\t' <= blanks[j] <= '\r'
    requires rest == "" || rest[0] < '0' || '9' < rest[0]
    ensures Atoi(blanks + (Decimal(n) + rest)) == n
    ensures Atoi(blanks + ("+" + (Decimal(n) + rest))) == n
    ensures Atoi(blanks + ("-" + (Decimal(n) + rest))) == -(n as int)
  {
    DecimalDigits(n);
    DigitsConcat(Decimal(n), rest, 0);
    assert IsDigit(Decimal(n)[0]) && (Decimal(n) + rest)[0] == Decimal(n)[0];
    AtoiAfterBlanks(blanks, Decimal(n) + rest);
  }

  lemma AtoiAfterBlanks(blanks: string, number: string)
    requires forall j :: 0 <= j < |blanks| ==> blanks[j] == ' ' || '\t' <= blanks[j] <= '\r'
    requires number != "" && IsDigit(number[0])
    ensures Atoi(blanks + number) == DigitsFrom(number, 0)
    ensures Atoi(blanks + ("+" + number)) == DigitsFrom(number, 0)
    ensures Atoi(blanks + ("-" + number)) == -(DigitsFrom(number, 0) as int)
  {
    SkipBlanks(blanks, number);
    SkipBlanks(blanks, "+" + number);
    SkipBlanks(blanks, "-" + number);
    AfterSign(number);
  }

  lemma AfterSign(number: string)
    ensures Atoi("+" + number) == DigitsFrom(number, 0) && Atoi("-" + number) == -(DigitsFrom(number, 0) as int)
  {
    assert ("+" + number)[1..] == number && ("-" + number)[1..] == number;
  }

  lemma {:induction false} SkipBlanks(blanks: string, s: string)
    requires forall j :: 0 <= j < |blanks| ==> blanks[j] == ' ' || '\t' <= blanks[j] <= '\r'
    ensures Atoi(blanks + s) == Atoi(s)
  {
    if blanks == "" {
      assert blanks + s == s;
    } else {
      assert (blanks + s)[1..] == blanks[1..] + s;
      SkipBlanks(blanks[1..], s);
    }
  }

  lemma LastDigit(c: char, acc: nat)
    requires '0' <= c <= '9'
    ensures DigitsFrom([c], acc) == acc * 10 + (c - '0') as nat
  {
    var s := [c];
    assert s[0] == c && IsDigit(c) && s[1..] == "";
    assert DigitsFrom("", acc * 10 + (c - '0') as nat) == acc * 10 + (c - '0') as nat;
  }

  /** What a digit means: in front alone, and behind other digits. */
  lemma DigitsArePositional(d: string, c: char)
    requires (forall j :: 0 <= j < |d| ==> '0' <= d[j] <= '9') && '0' <= c <= '9'
    ensures Atoi([c]) == (c - '0') as int
    ensures d != "" ==> Atoi(d + [c]) == 10 * Atoi(d) + (c - '0') as int
  {
    LastDigit(c, 0);
    LastDigit(c, DigitsFrom(d, 0));
    DigitsConcat(d, [c], 0);
    if d != "" {
      assert (d + [c])[0] == d[0] && IsDigit(d[0]);
      assert Atoi(d) == DigitsFrom(d, 0) && Atoi(d + [c]) == DigitsFrom(d + [c], 0);
    }
  }

  /** A text with neither a digit nor a sign after its blanks reads as 0. */
  lemma NoNumberIsZero(blanks: string, rest: string)
    requires forall j :: 0 <= j < |blanks| ==> blanks[j] == ' ' || '\t' <= blanks[j] <= '\r'
    requires rest != "" ==>
      var c := rest[0];
      c != ' ' && !('\t' <= c <= '\r') && !('0' <= c <= '9') && c != '+' && c != '-'
    ensures Atoi(blanks + rest) == 0
  {
    SkipBlanks(blanks, rest);
  }

  function Pow10(k: nat): nat { if k == 0 then 1 else 10 * Pow10(k - 1) }

  lemma {:induction false} DecimalIsShort(n: nat, k: nat)
    requires k > 0 && n < Pow10(k)
    ensures |Decimal(n)| <= k
  {
    if n >= 10 { DecimalIsShort(n / 10, k - 1); }
  }

  // ---------------------------------------------------------------- load_config

  datatype Settings = Settings(destIp: string, destPort: int, deviceNames: seq<string>, numDevices: int)

  class Config {
    var destIp: string
    var destPort: int
    var deviceNames: array<string>
    var numDevices: int

    ghost function View(): Settings
      reads this, deviceNames
    {
      Settings(destIp, destPort, deviceNames[..], numDevices)
    }

    /** An uninitialised allocation. */
    constructor (garbage: Settings)
      requires |garbage.deviceNames| == MAX_DEVICES
      ensures View() == garbage && fresh(deviceNames) && deviceNames.Length == MAX_DEVICES
    {
      destIp, destPort, numDevices := garbage.destIp, garbage.destPort, garbage.numDevices;
      deviceNames := new string[MAX_DEVICES](i requires 0 <= i < MAX_DEVICES => garbage.deviceNames[i]);
    }
  }

  /** The texts that `load_config` looks up. */
  datatype Raw = Raw(ips: seq<string>, ports: seq<string>, devices: seq<string>)

  function RawOf(ts: seq<Token>): Raw {
    Raw(Texts(ValuesOf(ts, "dest_ip")), Texts(ValuesOf(ts, "dest_port")), Texts(ValuesOf(ts, "devices")))
  }

  /** The texts fit the fields they are copied into. */
  predicate RawFits(raw: Raw) {
    && (raw.ips != [] ==> |raw.ips[0]| < MAX_IP_LEN)
    && (raw.ports != [] ==> -0x8000_0000 <= Atoi(raw.ports[0]) < 0x8000_0000)
    && |raw.devices| <= MAX_DEVICES && forall d :: d in raw.devices ==> |d| < MAX_NAME_LEN
  }

  /** What a file makes of the former settings `g`: what it does not define stays as it was. */
  function Loaded(raw: Raw, g: Settings): Settings
    requires |g.deviceNames| == MAX_DEVICES && RawFits(raw)
  {
    Settings(
      if raw.ips == [] then g.destIp else raw.ips[0],
      if raw.ports == [] || Atoi(raw.ports[0]) == 0 then g.destPort else Atoi(raw.ports[0]) % PORTS,
      raw.devices + g.deviceNames[|raw.devices|..],
      if raw.devices == [] then g.numDevices else |raw.devices|)
  }

  function FileTokens(file: Option<string>): seq<Token> {
    if file.None? then [] else TextTokens(file.value)
  }

  method LoadConfig(file: Option<string>, garbage: Settings) returns (config: Config)
    requires file.Some? ==> Loadable(file.value)
    requires RawFits(RawOf(FileTokens(file))) && |garbage.deviceNames| == MAX_DEVICES
    ensures fresh(config) && fresh(config.deviceNames)
    ensures config.View() == Loaded(RawOf(FileTokens(file)), garbage)
    ensures
      var ts := if file.None? then [] else TextTokens(file.value);
      var ips, ports := Texts(ValuesOf(ts, "dest_ip")), Texts(ValuesOf(ts, "dest_port"));
      var devices := Texts(ValuesOf(ts, "devices"));
      && |devices| <= 8
      && config.destIp == (if ips == [] then garbage.destIp else ips[0])
      && config.destPort == (if ports == [] || Atoi(ports[0]) == 0 then garbage.destPort else Atoi(ports[0]) % 65536)
      && config.deviceNames[..] == devices + garbage.deviceNames[|devices|..]
      && config.numDevices == if devices == [] then garbage.numDevices else |devices|
  {
    config := new Config(garbage);
    var tokens, numTokens, inBuffer := LoadTokens(file);
    assert inBuffer;
    assert tokens[..numTokens] == FileTokens(file);
    Fill(config, tokens, numTokens);
  }

  /** The three lookups of `load_config` and what they assign. */
  method Fill(config: Config, tokens: array<Token>, numTokens: nat)
    requires numTokens <= tokens.Length && config.deviceNames.Length == MAX_DEVICES
    requires tokens as object != config.deviceNames
    requires RawFits(RawOf(tokens[..numTokens]))
    modifies config, config.deviceNames
    ensures config.deviceNames == old(config.deviceNames)
    ensures config.View() == Loaded(RawOf(tokens[..numTokens]), old(config.View()))
  {
    ghost var ts, g := tokens[..numTokens], config.View();
    ghost var raw := RawOf(ts);
    FillIp(config, tokens, numTokens, raw);
    assert tokens[..numTokens] == ts;
    FillPort(config, tokens, numTokens, raw);
    assert tokens[..numTokens] == ts;
    FillDevices(config, tokens, numTokens, raw);
    assert tokens[..numTokens] == ts;
    FieldsLoaded(raw, g, config.View());
  }

  lemma FieldsLoaded(raw: Raw, g: Settings, r: Settings)
    requires RawFits(raw) && |g.deviceNames| == MAX_DEVICES
    requires r.destIp == if raw.ips == [] then g.destIp else raw.ips[0]
    requires r.destPort ==
      if raw.ports == [] || Atoi(raw.ports[0]) == 0 then g.destPort else Atoi(raw.ports[0]) % PORTS
    requires r.deviceNames == raw.devices + g.deviceNames[|raw.devices|..]
    requires r.numDevices == if raw.devices == [] then g.numDevices else |raw.devices|
    ensures r == Loaded(raw, g)
  {}

  method FillIp(config: Config, tokens: array<Token>, numTokens: nat, ghost raw: Raw)
    requires numTokens <= tokens.Length && raw == RawOf(tokens[..numTokens])
    modifies config`destIp
    ensures config.destIp == if raw.ips == [] then old(config.destIp) else raw.ips[0]
  {
    var vals := GetVariable(tokens, numTokens, "dest_ip");
    if vals.Some? {
      config.destIp := vals.value[0].val;
    }
  }

  method FillPort(config: Config, tokens: array<Token>, numTokens: nat, ghost raw: Raw)
    requires numTokens <= tokens.Length && raw == RawOf(tokens[..numTokens])
    modifies config`destPort
    ensures config.destPort ==
      if raw.ports == [] || Atoi(raw.ports[0]) == 0 then old(config.destPort) else Atoi(raw.ports[0]) % PORTS
  {
    var vals := GetVariable(tokens, numTokens, "dest_port");
    if vals.Some? {
      var tempPort := Atoi(vals.value[0].val);
      if tempPort != 0 {
        config.destPort := tempPort % PORTS;
      }
    }
  }

  method FillDevices(config: Config, tokens: array<Token>, numTokens: nat, ghost raw: Raw)
    requires numTokens <= tokens.Length && raw == RawOf(tokens[..numTokens])
    requires |raw.devices| <= config.deviceNames.Length == MAX_DEVICES && tokens as object != config.deviceNames
    modifies config`numDevices, config.deviceNames
    ensures config.deviceNames[..] == raw.devices + old(config.deviceNames[..])[|raw.devices|..]
    ensures config.numDevices == if raw.devices == [] then old(config.numDevices) else |raw.devices|
  {
    var vals := GetVariable(tokens, numTokens, "devices");
    if vals.Some? {
      assert Texts(vals.value) == raw.devices;
      CopyNames(config.deviceNames, vals.value);
      config.numDevices := |vals.value|;
    }
  }

  method CopyNames(names: array<string>, values: seq<Token>)
    requires |values| <= names.Length
    modifies names
    ensures names[..] == Texts(values) + old(names[..])[|values|..]
  {
    var i := 0;
    while i < |values|
      invariant 0 <= i <= |values|
      invariant forall j :: 0 <= j < names.Length ==> names[j] == if j < i then values[j].val else old(names[j])
    {
      names[i] := values[i].val;
      i := i + 1;
    }
  }

  // ---------------------------------------------------------------- round trip

  function PrintSettings(ip: string, port: nat, devices: seq<string>): string {
    Print([Single("dest_ip", ip), Single("dest_port", Decimal(port)), List("devices", devices)])
  }

  predicate PrintableSettings(ip: string, port: nat, devices: seq<string>) {
    && ip != "" && IsWord(ip, false) && |ip| < MAX_IP_LEN
    && port < 0x8000_0000
    && |devices| <= MAX_DEVICES
    && forall d :: d in devices ==> d != "" && IsWord(d, false) && |d| < MAX_NAME_LEN
  }

  lemma ConsDefinition(d: Definition, rest: seq<Definition>, name: string)
    ensures PrintedTokens([d] + rest) == |Values(d)| + (if d.Single? then 1 else 3) + PrintedTokens(rest)
    ensures ConfigValues([d] + rest, name) == (if d.name == name then Values(d) else []) + ConfigValues(rest, name)
  {
    assert ([d] + rest)[1..] == rest;
  }

  /** What one lookup finds in a file of three definitions with different names. */
  lemma ThreeDefinitions(a: Definition, b: Definition, c: Definition, d: Definition)
    requires d == a || d == b || d == c
    requires a.name != b.name && a.name != c.name && b.name != c.name
    ensures ConfigValues([a] + ([b] + ([c] + [])), d.name) == Values(d)
  {
    ConsDefinition(c, [], d.name);
    ConsDefinition(b, [c] + [], d.name);
    ConsDefinition(a, [b] + ([c] + []), d.name);
  }

  lemma PrintedLookup(a: Definition, b: Definition, c: Definition, d: Definition)
    requires DefinitionOk(a) && DefinitionOk(b) && DefinitionOk(c) && (d == a || d == b || d == c)
    requires a.name != b.name && a.name != c.name && b.name != c.name
    ensures Texts(ValuesOf(TextTokens(Print([a, b, c])), d.name)) == Values(d)
  {
    assert [a, b, c] == [a] + ([b] + ([c] + []));
    ThreeDefinitions(a, b, c, d);
    ConfigRoundTrip([a, b, c], d.name);
  }

  lemma PrintedLoads(a: Definition, b: Definition, c: Definition)
    requires DefinitionOk(a) && DefinitionOk(b) && DefinitionOk(c)
    requires |Values(a)| + |Values(b)| + |Values(c)| < 100
    ensures Loadable(Print([a, b, c]))
  {
    assert [a, b, c] == [a] + ([b] + ([c] + []));
    ThreeTokens(a, b, c);
    PrintedConfigLoads([a, b, c]);
  }

  lemma ThreeTokens(a: Definition, b: Definition, c: Definition)
    ensures PrintedTokens([a] + ([b] + ([c] + []))) <= |Values(a)| + |Values(b)| + |Values(c)| + 9
  {
    ConsDefinition(c, [], "");
    ConsDefinition(b, [c] + [], "");
    ConsDefinition(a, [b] + ([c] + []), "");
  }

  lemma NamesDiffer()
    ensures "dest_ip" != "dest_port" && "dest_ip" != "devices" && "dest_port" != "devices"
  {
    assert "dest_ip"[2] == 's' && "devices"[2] == 'v' && |"dest_ip"| == |"devices"| < |"dest_port"|;
  }

  lemma SettingsDefinitionsOk(ip: string, devices: seq<string>)
    requires PrintableSettings(ip, 0, devices)
    ensures DefinitionOk(Single("dest_ip", ip)) && DefinitionOk(List("devices", devices))
  {
    assert IsWord("dest_ip", true) && IsWord("devices", true);
  }

  lemma PrintedSettingsLookup(ip: string, port: nat, devices: seq<string>)
    requires PrintableSettings(ip, port, devices)
    ensures Loadable(PrintSettings(ip, port, devices))
    ensures RawOf(TextTokens(PrintSettings(ip, port, devices))) == Raw([ip], [Decimal(port)], devices)
  {
    var a, b, c := Single("dest_ip", ip), Single("dest_port", Decimal(port)), List("devices", devices);
    NamesDiffer();
    PortDefinitionOk(port);
    SettingsDefinitionsOk(ip, devices);
    PrintedLoads(a, b, c);
    PrintedLookup(a, b, c, a);
    PrintedLookup(a, b, c, b);
    PrintedLookup(a, b, c, c);
  }

  lemma PortIsShort(port: nat)
    requires port < 0x8000_0000
    ensures |Decimal(port)| <= 10
  {
    assert Pow10(5) == 10 * Pow10(4) == 100000;
    assert Pow10(8) == 10 * Pow10(7) == 100 * Pow10(6) == 100000000;
    assert Pow10(10) == 10 * Pow10(9) == 100 * Pow10(8);
    DecimalIsShort(port, 10);
  }

  lemma PortDefinitionOk(port: nat)
    requires port < 0x8000_0000
    ensures DefinitionOk(Single("dest_port", Decimal(port)))
  {
    var d := Decimal(port);
    DecimalDigits(port);
    PortIsShort(port);
    assert IsWord(d, false) by { assert IsDigit(d[0]); }
    assert IsWord("dest_port", true);
  }

  lemma PrintedSettingsRaw(ip: string, port: nat, devices: seq<string>, text: string) returns (digits: string)
    requires PrintableSettings(ip, port, devices) && text == PrintSettings(ip, port, devices)
    ensures Loadable(text) && RawOf(TextTokens(text)) == Raw([ip], [digits], devices) && Atoi(digits) == port
  {
    digits := Decimal(port);
    PrintedSettingsLookup(ip, port, devices);
    AtoiOfDecimal(port);
  }

  lemma LoadedBack(ip: string, digits: string, port: nat, devices: seq<string>, g: Settings, raw: Raw)
    requires PrintableSettings(ip, port, devices) && |g.deviceNames| == MAX_DEVICES
    requires Atoi(digits) == port && raw == Raw([ip], [digits], devices)
    ensures RawFits(raw)
    ensures
      var r := Loaded(raw, g);
      && r.destIp == ip
      && r.deviceNames == devices + g.deviceNames[|devices|..]
      && r.destPort == (if port == 0 then g.destPort else port % 65536)
      && r.numDevices == (if devices == [] then g.numDevices else |devices|)
      && (port < 65536 ==> (r.destPort == port <==> port != 0 || g.destPort == 0))
      && (r.numDevices == |devices| <==> devices != [] || g.numDevices == 0)
  {}

  /** Loading printed settings gives them back, except that port 0 and an empty device list are
      not stored: those two come back exactly when the fresh struct happened to hold them. A number
      that is no port is taken modulo 65536. */
  lemma {:induction false} SettingsRoundTrip(ip: string, port: nat, devices: seq<string>, g: Settings)
    requires ip != "" && IsWord(ip, false) && |ip| < 16 && port < 0x8000_0000 && |devices| <= 8
    requires forall d :: d in devices ==> d != "" && IsWord(d, false) && |d| < 64
    requires |g.deviceNames| == 8
    ensures
      var text := Print([Single("dest_ip", ip), Single("dest_port", Decimal(port)), List("devices", devices)]);
      var raw := RawOf(TextTokens(text));
      && Loadable(text) && RawFits(raw)
      && var r := Loaded(raw, g);
         && r.destIp == ip
         && r.deviceNames == devices + g.deviceNames[|devices|..]
         && r.destPort == (if port == 0 then g.destPort else port % 65536)
         && r.numDevices == (if devices == [] then g.numDevices else |devices|)
         && (port < 65536 ==> (r.destPort == port <==> port != 0 || g.destPort == 0))
         && (r.numDevices == |devices| <==> devices != [] || g.numDevices == 0)
  {
    var text := PrintSettings(ip, port, devices);
    var digits := PrintedSettingsRaw(ip, port, devices, text);
    LoadedBack(ip, digits, port, devices, g, RawOf(TextTokens(text)));
  }

  /** What is stored fits the fields of the C struct. */
  lemma LoadedFits(raw: Raw, g: Settings)
    requires RawFits(raw) && |g.deviceNames| == 8 && |g.destIp| < 16 && 0 <= g.destPort < 65536
    requires 0 <= g.numDevices < 65536 && forall d :: d in g.deviceNames ==> |d| < 64
    ensures
      var r := Loaded(raw, g);
      && |r.destIp| < 16 && 0 <= r.destPort < 65536 && 0 <= r.numDevices < 65536
      && |r.deviceNames| == 8 && forall d :: d in r.deviceNames ==> |d| < 64
  {
    assert forall d :: d in raw.devices + g.deviceNames[|raw.devices|..] ==> d in raw.devices || d in g.deviceNames;
  }
}
