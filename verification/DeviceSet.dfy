/**
 The reviewed device record: a canonical text form of a sorted list of input devices.

 A file name of the system is a sequence of pieces: characters, and runs of bytes that are not
 UTF-8. Displaying a path turns every such run into the replacement character, which is what the
 encoder writes. The record itself is text, with its size counted in UTF-8 bytes.
 */
module DeviceSet {
  import opened Prelude
  import opened Text

  const HEADER := "agent-seat-device-set\t1\n"
  const MAX_VALUE_BYTES: nat := 1024
  const MAX_CAPABILITY_VALUE_BYTES: nat := 4096
  const MAX_DEVICE_SET_BYTES: nat := 65536
  const MAX_EVENT_DESCRIPTORS: nat := 32
  const FIELDS: nat := 19
  const CLASSES := ["key", "keyboard", "mouse", "touchpad", "touchscreen", "tablet"]

  datatype Piece = Char(c: char) | Malformed(bytes: nat)

  type Path = seq<Piece>

  datatype Identity = Identity(
    path: string, bus: Option<string>, vendor: Option<string>, model: Option<string>,
    revision: Option<string>, serial: Option<string>)

  datatype Device = Device(
    number: nat, path: Path, classes: seq<string>, identity: Identity, capabilities: seq<string>)

  datatype Fault = Invalid | TooLarge

  datatype Result<T> = Ok(value: T) | Err(fault: Fault)

  // ----- paths -----

  function Chars(s: string): (p: Path)
    ensures |p| == |s| && forall i :: 0 <= i < |s| ==> p[i] == Char(s[i])
  {
    seq(|s|, i requires 0 <= i < |s| => Char(s[i]))
  }

  function Display(p: Path): (s: string)
    ensures |s| == |p|
    ensures forall i :: 0 <= i < |p| ==> s[i] == if p[i].Char? then p[i].c else '\U{FFFD}'
  {
    seq(|p|, i requires 0 <= i < |p| => if p[i].Char? then p[i].c else '\U{FFFD}')
  }

  /** Exactly the paths the text form can carry. */
  predicate PlainPath(p: Path) {
    forall i :: 0 <= i < |p| ==> p[i].Char? && p[i].c != '\t' && p[i].c != '\n'
  }

  function Normalized(parts: seq<Path>): seq<Path> {
    if parts == [] then []
    else if parts[0] == [] || parts[0] == Chars(".") then Normalized(parts[1..])
    else [parts[0]] + Normalized(parts[1..])
  }

  /** The components after the root: empty and "." parts do not count. */
  function Components(p: Path): seq<Path> {
    Normalized(Split(p, Char('/')))
  }

  predicate PathOk(number: nat, p: Path) {
    && p != [] && p[0] == Char('/')
    && var parts := Components(p);
    && |parts| >= 2 && parts[0] == Chars("sys") && parts[1] == Chars("devices")
    && parts[|parts| - 1] == Chars("event" + Decimal(number))
    && Chars("..") !in parts
  }

  // ----- fields -----

  predicate Printable(s: string) {
    forall i :: 0 <= i < |s| ==> ' ' <= s[i] <= '~'
  }

  predicate ValueOk(s: string) {
    s != [] && s != "-" && Utf8Length(s) <= MAX_VALUE_BYTES && Printable(s)
  }

  predicate OptionOk(o: Option<string>) {
    o.Some? ==> ValueOk(o.value)
  }

  predicate IdentityOk(id: Identity) {
    && ValueOk(id.path) && OptionOk(id.bus) && OptionOk(id.vendor) && OptionOk(id.model)
    && OptionOk(id.revision) && OptionOk(id.serial)
    && (id.vendor.Some? <==> id.model.Some?)
  }

  predicate CapabilityChar(c: char) {
    c == ' ' || IsDigit(c) || 'a' <= c <= 'f'
  }

  predicate CapabilityOk(s: string) {
    && s != [] && Utf8Length(s) <= MAX_CAPABILITY_VALUE_BYTES && s[0] != ' ' && s[|s| - 1] != ' '
    && (forall i :: 0 < i < |s| ==> !(s[i] == ' ' && s[i - 1] == ' '))
    && (forall i :: 0 <= i < |s| ==> CapabilityChar(s[i]))
  }

  predicate CapabilitiesOk(values: seq<string>) {
    |values| == 10 && forall i :: 0 <= i < 10 ==> CapabilityOk(values[i])
  }

  /** The place of a class in the fixed list, or the length of the list. */
  function ClassIndex(c: string): (i: nat)
    ensures i <= |CLASSES| && (i < |CLASSES| ==> CLASSES[i] == c)
  {
    if c == "key" then 0 else if c == "keyboard" then 1 else if c == "mouse" then 2
    else if c == "touchpad" then 3 else if c == "touchscreen" then 4 else if c == "tablet" then 5 else 6
  }

  predicate ClassesOk(classes: seq<string>) {
    && 0 < |classes| <= 6
    && (forall i :: 0 <= i < |classes| ==> ClassIndex(classes[i]) < |CLASSES|)
    && (forall i, j :: 0 <= i < j < |classes| ==> ClassIndex(classes[i]) < ClassIndex(classes[j]))
  }

  /** What the constructors guarantee of every device value there is. */
  predicate DeviceOk(d: Device) {
    && d.number <= U32_MAX && PathOk(d.number, d.path) && ClassesOk(d.classes)
    && IdentityOk(d.identity) && CapabilitiesOk(d.capabilities)
  }

  predicate DevicesOk(ds: seq<Device>) {
    forall i :: 0 <= i < |ds| ==> DeviceOk(ds[i])
  }

  // ----- the text form -----

  function Optional(o: Option<string>): string {
    match o case None => "-" case Some(s) => s
  }

  function ParseOptional(s: string): Option<string> {
    if s == "-" then None else Some(s)
  }

  function FieldsOf(d: Device): (f: seq<string>)
    ensures |f| == 9 + |d.capabilities|
  {
    ["event" + Decimal(d.number), Display(d.path), Join(d.classes, ','), d.identity.path,
     Optional(d.identity.bus), Optional(d.identity.vendor), Optional(d.identity.model),
     Optional(d.identity.revision), Optional(d.identity.serial)] + d.capabilities
  }

  function LineOf(d: Device): string {
    Join(FieldsOf(d), '\t')
  }

  /** All the encoder looks at in a device: its number, whether it is well formed, and its line. */
  datatype Item = Item(number: nat, fit: bool, line: string)

  function ItemOf(d: Device): Item {
    Item(d.number, PathOk(d.number, d.path) && ClassesOk(d.classes), LineOf(d))
  }

  function ItemsOf(ds: seq<Device>): (items: seq<Item>)
    ensures |items| == |ds|
  {
    seq(|ds|, i requires 0 <= i < |ds| => ItemOf(ds[i]))
  }

  /** Every line ended by a newline. */
  function Ended(items: seq<Item>): string {
    if items == [] then [] else Ended(items[..|items| - 1]) + items[|items| - 1].line + "\n"
  }

  function TextOf(items: seq<Item>): string {
    HEADER + Ended(items)
  }

  function EventNumber(s: string): Option<nat> {
    if !("event" <= s) then None
    else match ParseU32(s[5..])
      case None => None
      case Some(n) => if Decimal(n) == s[5..] then Some(n) else None
  }

  /** The device a line of the right shape describes, before validation. */
  function Described(number: nat, f: seq<string>): Device
    requires |f| == FIELDS
  {
    Device(number, Chars(f[1]), Split(f[2], ','), DescribedIdentity(f), f[9..])
  }

  function DescribedIdentity(f: seq<string>): Identity
    requires |f| == FIELDS
  {
    Identity(f[3], ParseOptional(f[4]), ParseOptional(f[5]), ParseOptional(f[6]), ParseOptional(f[7]), ParseOptional(f[8]))
  }

  function ParseLine(line: string): Option<Device> {
    var f := Split(line, '\t');
    if |f| != FIELDS then None
    else match EventNumber(f[0])
      case None => None
      case Some(n) => if DeviceOk(Described(n, f)) then Some(Described(n, f)) else None
  }

  /** `str::lines` of text that ends with a newline: a carriage return before it goes too. */
  function Lines(body: string): seq<string>
    requires body != []
  {
    var parts := Split(body[..|body| - 1], '\n');
    seq(|parts|, i requires 0 <= i < |parts| => StripReturn(parts[i]))
  }

  function StripReturn(line: string): string {
    if line != [] && line[|line| - 1] == '\r' then line[..|line| - 1] else line
  }

  // ----- what the encoder accepts -----

  /** The checks on item `i`, in the encoder's order; `text` is the output so far, with its line. */
  function Checked(items: seq<Item>, i: nat, text: string): Option<Fault>
    requires i < |items|
  {
    if i > 0 && items[i - 1].number >= items[i].number then Some(Invalid)
    else if !items[i].fit then Some(Invalid)
    else if Utf8Length(text) > MAX_DEVICE_SET_BYTES then Some(TooLarge)
    else None
  }

  function EncodePrefix(items: seq<Item>, n: nat): Result<string>
    requires n <= |items|
  {
    if n == 0 then Ok(HEADER)
    else match EncodePrefix(items, n - 1)
      case Err(e) => Err(e)
      case Ok(text) =>
        var longer := text + items[n - 1].line + "\n";
        match Checked(items, n - 1, longer) case Some(e) => Err(e) case None => Ok(longer)
  }

  function Encode(ds: seq<Device>): Result<string> {
    if ds == [] || |ds| > MAX_EVENT_DESCRIPTORS then Err(TooLarge) else EncodePrefix(ItemsOf(ds), |ds|)
  }

  function ParsePrefix(parsed: seq<Option<Device>>, n: nat): Result<seq<Device>>
    requires n <= |parsed|
  {
    if n == 0 then Ok([])
    else match ParsePrefix(parsed, n - 1)
      case Err(e) => Err(e)
      case Ok(ds) =>
        if |ds| >= MAX_EVENT_DESCRIPTORS then Err(TooLarge)
        else match parsed[n - 1] case None => Err(Invalid) case Some(d) => Ok(ds + [d])
  }

  function Parsed(lines: seq<string>): (parsed: seq<Option<Device>>)
    ensures |parsed| == |lines|
  {
    seq(|lines|, i requires 0 <= i < |lines| => ParseLine(lines[i]))
  }

  /** `source` is None when the bytes are not UTF-8. */
  function Decode(source: Option<string>, bytes: nat): Result<seq<Device>> {
    if bytes > MAX_DEVICE_SET_BYTES then Err(TooLarge)
    else if source.None? || !(HEADER <= source.value) then Err(Invalid)
    else
      var body := source.value[|HEADER|..];
      if body == [] || body[|body| - 1] != '\n' then Err(Invalid)
      else match ParsePrefix(Parsed(Lines(body)), |Lines(body)|)
        case Err(e) => Err(e)
        case Ok(ds) => Canonical(ds, source.value)
  }

  function Canonical(ds: seq<Device>, source: string): Result<seq<Device>> {
    match Encode(ds)
    case Err(e) => Err(e)
    case Ok(text) => if text == source then Ok(ds) else Err(Invalid)
  }

  function DecodeText(text: string): Result<seq<Device>> {
    Decode(Some(text), Utf8Length(text))
  }

  // ----- what acceptance means -----

  predicate Acceptable(ds: seq<Device>) {
    && 0 < |ds| <= MAX_EVENT_DESCRIPTORS
    && (forall i, j :: 0 <= i < j < |ds| ==> ds[i].number < ds[j].number)
    && (forall i :: 0 <= i < |ds| ==> PathOk(ds[i].number, ds[i].path) && ClassesOk(ds[i].classes))
    && Utf8Length(TextOf(ItemsOf(ds))) <= MAX_DEVICE_SET_BYTES
  }

  predicate PrefixOk(items: seq<Item>, n: nat)
    requires n <= |items|
  {
    && (forall i :: 0 < i < n ==> items[i - 1].number < items[i].number)
    && (forall i :: 0 <= i < n ==> items[i].fit)
    && Utf8Length(TextOf(items[..n])) <= MAX_DEVICE_SET_BYTES
  }

  lemma TextGrows(items: seq<Item>, n: nat)
    requires 0 < n <= |items|
    ensures TextOf(items[..n]) == TextOf(items[..n - 1]) + items[n - 1].line + "\n"
    ensures Utf8Length(TextOf(items[..n - 1])) <= Utf8Length(TextOf(items[..n]))
  {
    var before, line := TextOf(items[..n - 1]), items[n - 1].line + "\n";
    assert items[..n][..n - 1] == items[..n - 1];
    assert TextOf(items[..n]) == before + line;
    assert before + line == before + items[n - 1].line + "\n";
    Utf8LengthConcat(before, line);
  }

  lemma {:induction false} EncodePrefixMeans(items: seq<Item>, n: nat)
    requires n <= |items|
    ensures EncodePrefix(items, n).Ok? ==> EncodePrefix(items, n).value == TextOf(items[..n])
    ensures EncodePrefix(items, n).Ok? <==> n == 0 || PrefixOk(items, n)
  {
    if n > 0 {
      EncodePrefixMeans(items, n - 1);
      TextGrows(items, n);
    }
  }

  lemma {:induction false} Ascending(items: seq<Item>, i: nat, j: nat)
    requires i < j < |items| && PrefixOk(items, |items|)
    ensures items[i].number < items[j].number
  {
    if i < j - 1 {
      Ascending(items, i, j - 1);
    }
  }

  /** The checks over the items are those over the devices. */
  lemma AcceptableItems(ds: seq<Device>)
    requires 0 < |ds| <= MAX_EVENT_DESCRIPTORS
    ensures PrefixOk(ItemsOf(ds), |ds|) <==> Acceptable(ds)
  {
    var items := ItemsOf(ds);
    assert items[..|ds|] == items;
    assert forall i :: 0 <= i < |ds| ==> items[i] == ItemOf(ds[i]);
    if PrefixOk(items, |ds|) {
      forall i, j | 0 <= i < j < |ds| ensures ds[i].number < ds[j].number {
        Ascending(items, i, j);
      }
      forall i | 0 <= i < |ds| ensures PathOk(ds[i].number, ds[i].path) && ClassesOk(ds[i].classes) {
        assert items[i].fit;
      }
    }
  }

  /** The encoder accepts exactly the acceptable lists, and writes their text form. */
  lemma EncodeMeans(ds: seq<Device>)
    ensures Encode(ds).Ok? <==> Acceptable(ds)
    ensures Encode(ds).Ok? ==> Encode(ds).value == TextOf(ItemsOf(ds))
  {
    if 0 < |ds| <= MAX_EVENT_DESCRIPTORS {
      EncodePrefixMeans(ItemsOf(ds), |ds|);
      assert ItemsOf(ds)[..|ds|] == ItemsOf(ds);
      AcceptableItems(ds);
    }
  }

  // ----- reading back one line -----

  lemma EventNumberRoundTrip(n: nat)
    requires n <= U32_MAX
    ensures EventNumber("event" + Decimal(n)) == Some(n)
  {
    ParseDecimal(n);
    assert ("event" + Decimal(n))[5..] == Decimal(n);
  }

  predicate PlainText(s: string) {
    '\t' !in s && '\n' !in s
  }

  lemma ClassesRoundTrip(classes: seq<string>)
    requires ClassesOk(classes)
    ensures PlainText(Join(classes, ',')) && Split(Join(classes, ','), ',') == classes
  {
    forall i | 0 <= i < |classes| ensures ',' !in classes[i] && PlainText(classes[i]) {
      assert CLASSES[ClassIndex(classes[i])] == classes[i];
    }
    JoinAvoids(classes, ',', '\t');
    JoinAvoids(classes, ',', '\n');
    SplitJoin(classes, ',');
  }

  lemma ValuesPlain(d: Device, i: nat)
    requires DeviceOk(d) && i < |FieldsOf(d)| && i != 1 && i != 2
    ensures PlainText(FieldsOf(d)[i])
  {
    if i >= 9 {
      assert CapabilityOk(d.capabilities[i - 9]);
    }
  }

  lemma PlainPathRoundTrip(p: Path)
    ensures PlainPath(p) ==> PlainText(Display(p)) && Chars(Display(p)) == p
  {
    if PlainPath(p) {
      assert Chars(Display(p)) == p;
    }
  }

  lemma OptionalRoundTrip(o: Option<string>)
    requires OptionOk(o)
    ensures ParseOptional(Optional(o)) == o
  {
  }

  lemma IdentityRoundTrip(d: Device)
    requires IdentityOk(d.identity) && |d.capabilities| == 10
    ensures DescribedIdentity(FieldsOf(d)) == d.identity
  {
    OptionalRoundTrip(d.identity.bus);
    OptionalRoundTrip(d.identity.vendor);
    OptionalRoundTrip(d.identity.model);
    OptionalRoundTrip(d.identity.revision);
    OptionalRoundTrip(d.identity.serial);
  }

  lemma FieldsRoundTrip(d: Device)
    requires DeviceOk(d) && PlainPath(d.path)
    ensures |FieldsOf(d)| == FIELDS && Described(d.number, FieldsOf(d)) == d
  {
    var f := FieldsOf(d);
    PlainPathRoundTrip(d.path);
    ClassesRoundTrip(d.classes);
    IdentityRoundTrip(d);
    assert f[1] == Display(d.path);
    assert f[2] == Join(d.classes, ',');
    assert f[9..] == d.capabilities;
  }

  lemma FieldsPlain(d: Device)
    requires DeviceOk(d) && PlainPath(d.path)
    ensures Without(FieldsOf(d), '\t') && Without(FieldsOf(d), '\n')
  {
    var f := FieldsOf(d);
    forall i | 0 <= i < |f| ensures PlainText(f[i]) {
      if i == 1 {
        PlainPathRoundTrip(d.path);
      } else if i == 2 {
        ClassesRoundTrip(d.classes);
      } else {
        ValuesPlain(d, i);
      }
    }
  }

  lemma {:induction false} JoinEnd(parts: seq<string>, sep: char)
    requires parts != [] && parts[|parts| - 1] != []
    ensures var s := Join(parts, sep); s != [] && s[|s| - 1] == parts[|parts| - 1][|parts[|parts| - 1]| - 1]
  {
    if |parts| > 1 {
      JoinEnd(parts[1..], sep);
    }
  }

  lemma LineEnd(d: Device)
    requires DeviceOk(d)
    ensures StripReturn(LineOf(d)) == LineOf(d)
  {
    var f := FieldsOf(d);
    assert f[|f| - 1] == d.capabilities[9] && CapabilityOk(d.capabilities[9]);
    JoinEnd(f, '\t');
  }

  lemma LineRoundTrip(d: Device)
    requires DeviceOk(d) && PlainPath(d.path)
    ensures ParseLine(LineOf(d)) == Some(d) && '\n' !in LineOf(d)
  {
    FieldsPlain(d);
    SplitJoin(FieldsOf(d), '\t');
    JoinAvoids(FieldsOf(d), '\t', '\n');
    FieldsRoundTrip(d);
    EventNumberRoundTrip(d.number);
  }

  // ----- reading back the record -----

  function LineSeq(items: seq<Item>): (lines: seq<string>)
    ensures |lines| == |items| && forall i :: 0 <= i < |items| ==> lines[i] == items[i].line
  {
    seq(|items|, i requires 0 <= i < |items| => items[i].line)
  }

  lemma {:induction false} EndedIsJoin(items: seq<Item>)
    requires items != []
    ensures Ended(items) == Join(LineSeq(items), '\n') + "\n"
  {
    var n := |items| - 1;
    if n == 0 {
      assert Ended(items[..0]) == [];
    } else {
      EndedIsJoin(items[..n]);
      JoinSnoc(LineSeq(items[..n]), items[n].line, '\n');
      assert LineSeq(items) == LineSeq(items[..n]) + [items[n].line];
    }
  }

  predicate LinesPlain(items: seq<Item>) {
    forall i :: 0 <= i < |items| ==> '\n' !in items[i].line && StripReturn(items[i].line) == items[i].line
  }

  lemma LinesRoundTrip(items: seq<Item>)
    requires items != [] && LinesPlain(items)
    ensures Ended(items) != [] && Ended(items)[|Ended(items)| - 1] == '\n' && Lines(Ended(items)) == LineSeq(items)
  {
    EndedIsJoin(items);
    var body := Ended(items);
    assert body[..|body| - 1] == Join(LineSeq(items), '\n');
    SplitJoin(LineSeq(items), '\n');
    assert Lines(body) == LineSeq(items);
  }

  /** The reader of lines is a plain map, up to the bound. */
  lemma {:induction false} ParsePrefixMeans(parsed: seq<Option<Device>>, n: nat)
    requires n <= |parsed|
    ensures var r := ParsePrefix(parsed, n);
            && (r.Ok? <==> n <= MAX_EVENT_DESCRIPTORS && forall i :: 0 <= i < n ==> parsed[i].Some?)
            && (r.Ok? ==> |r.value| == n && forall i :: 0 <= i < n ==> r.value[i] == parsed[i].value)
  {
    if n > 0 {
      ParsePrefixMeans(parsed, n - 1);
    }
  }

  function AllSome(ds: seq<Device>): (r: seq<Option<Device>>)
    ensures |r| == |ds| && forall i :: 0 <= i < |ds| ==> r[i] == Some(ds[i])
  {
    seq(|ds|, i requires 0 <= i < |ds| => Some(ds[i]))
  }

  lemma ParsePrefixOf(ds: seq<Device>)
    requires |ds| <= MAX_EVENT_DESCRIPTORS
    ensures ParsePrefix(AllSome(ds), |ds|) == Ok(ds)
  {
    ParsePrefixMeans(AllSome(ds), |ds|);
    assert ParsePrefix(AllSome(ds), |ds|).value == ds;
  }

  lemma DecodeTextOf(ds: seq<Device>, text: string)
    requires Encode(ds) == Ok(text) && LinesPlain(ItemsOf(ds)) && Parsed(LineSeq(ItemsOf(ds))) == AllSome(ds)
    ensures DecodeText(text) == Ok(ds)
  {
    EncodeMeans(ds);
    TextParts(ItemsOf(ds));
    LinesRoundTrip(ItemsOf(ds));
    ParsePrefixOf(ds);
    assert Canonical(ds, text) == Ok(ds);
  }

  lemma TextParts(items: seq<Item>)
    ensures HEADER <= TextOf(items) && TextOf(items)[|HEADER|..] == Ended(items)
  {
  }

  predicate AllPlain(ds: seq<Device>) {
    forall i :: 0 <= i < |ds| ==> PlainPath(ds[i].path)
  }

  lemma PlainReadsBack(ds: seq<Device>, text: string)
    requires DevicesOk(ds) && Encode(ds) == Ok(text) && AllPlain(ds)
    ensures DecodeText(text) == Ok(ds)
  {
    forall i | 0 <= i < |ds|
      ensures ParseLine(LineOf(ds[i])) == Some(ds[i]) && '\n' !in LineOf(ds[i])
      ensures StripReturn(LineOf(ds[i])) == LineOf(ds[i])
    {
      LineRoundTrip(ds[i]);
      LineEnd(ds[i]);
    }
    assert Parsed(LineSeq(ItemsOf(ds))) == AllSome(ds);
    DecodeTextOf(ds, text);
  }

  lemma ParsedPath(line: string)
    requires '\n' !in line && ParseLine(line).Some?
    ensures PlainPath(ParseLine(line).value.path) && DeviceOk(ParseLine(line).value)
  {
    SplitParts(line, '\t');
    SplitFrom(line, '\t', '\n');
    var field := Split(line, '\t')[1];
    assert '\t' !in field && '\n' !in field;
    assert forall i :: 0 <= i < |field| ==> field[i] in field;
  }

  lemma LinesHaveNoNewline(body: string)
    requires body != []
    ensures Without(Lines(body), '\n')
  {
    var parts := Split(body[..|body| - 1], '\n');
    SplitParts(body[..|body| - 1], '\n');
    forall i | 0 <= i < |parts| ensures '\n' !in Lines(body)[i] {
      assert '\n' !in parts[i];
    }
  }

  lemma ParsedAll(lines: seq<string>)
    requires Without(lines, '\n')
    ensures var r := ParsePrefix(Parsed(lines), |lines|); r.Ok? ==> DevicesOk(r.value) && AllPlain(r.value)
  {
    ParsePrefixMeans(Parsed(lines), |lines|);
    var r := ParsePrefix(Parsed(lines), |lines|);
    if r.Ok? {
      forall i | 0 <= i < |r.value| ensures DeviceOk(r.value[i]) && PlainPath(r.value[i].path) {
        assert Parsed(lines)[i] == ParseLine(lines[i]);
        ParsedPath(lines[i]);
      }
    }
  }

  /** Whatever the reader accepts is well formed, plain, and the one text its list is written as. */
  lemma AcceptedIsCanonical(source: Option<string>, bytes: nat)
    requires Decode(source, bytes).Ok?
    ensures var ds := Decode(source, bytes).value;
            source.Some? && Encode(ds) == Ok(source.value) && DevicesOk(ds) && AllPlain(ds)
  {
    var body := source.value[|HEADER|..];
    LinesHaveNoNewline(body);
    ParsedAll(Lines(body));
  }

  /** A list reads back from its own record exactly when its paths are plain. */
  lemma RoundTripExactly(ds: seq<Device>, text: string)
    requires DevicesOk(ds) && Encode(ds) == Ok(text)
    ensures DecodeText(text) == Ok(ds) <==> AllPlain(ds)
  {
    if AllPlain(ds) {
      PlainReadsBack(ds, text);
    } else if DecodeText(text) == Ok(ds) {
      AcceptedIsCanonical(Some(text), Utf8Length(text));
      assert false;
    }
  }

  /** A device in a directory with a name of one piece, be it a tab or no UTF-8 at all. */
  function OddDevice(name: Piece): Device {
    Device(0, Join([[], Chars("sys"), Chars("devices"), [name], Chars("event0")], Char('/')), ["key"],
           Identity("p", None, None, None, None, None), seq(10, i => "0"))
  }

  lemma {:induction false} AlreadyNormal(parts: seq<Path>)
    requires forall i :: 0 <= i < |parts| ==> parts[i] != [] && parts[i][0] != Char('.')
    ensures Normalized(parts) == parts
  {
    if parts != [] {
      AlreadyNormal(parts[1..]);
    }
  }

  lemma JoinFour(a: Path, b: Path, c: Path, d: Path)
    ensures Join([[], a, b, c, d], Char('/')) == [Char('/')] + a + [Char('/')] + b + [Char('/')] + c + [Char('/')] + d
  {
    var parts := [[], a, b, c, d];
    assert Join(parts[3..], Char('/')) == c + [Char('/')] + d;
    assert Join(parts[2..], Char('/')) == b + [Char('/')] + Join(parts[3..], Char('/'));
    assert Join(parts[1..], Char('/')) == a + [Char('/')] + Join(parts[2..], Char('/'));
  }

  lemma OddPath(name: Piece)
    ensures OddDevice(name).path == Chars("/sys/devices/") + [name] + Chars("/event0")
  {
    JoinFour(Chars("sys"), Chars("devices"), [name], Chars("event0"));
    assert Chars("/sys/devices/") == [Char('/')] + Chars("sys") + [Char('/')] + Chars("devices") + [Char('/')];
    assert Chars("/event0") == [Char('/')] + Chars("event0");
  }

  /** The path check lets any name through. */
  lemma OddPathOk(name: Piece)
    requires name != Char('/') && name != Char('.')
    ensures PathOk(0, OddDevice(name).path)
  {
    var parts := [[], Chars("sys"), Chars("devices"), [name], Chars("event0")];
    OddPath(name);
    SplitJoin(parts, Char('/'));
    AlreadyNormal(parts[1..]);
    assert Decimal(0) == "0" && "event" + Decimal(0) == "event0";
    assert forall i :: 0 <= i < |parts[1..]| ==> parts[1..][i][0] != Chars("..")[0];
  }

  lemma OddDeviceOk(name: Piece)
    requires name != Char('/') && name != Char('.')
    ensures DeviceOk(OddDevice(name)) && Small(OddDevice(name)) && ItemOf(OddDevice(name)).fit
  {
    OddPathOk(name);
    OddPath(name);
    Utf8Bound("p");
    Utf8Bound("0");
  }

  lemma OneLine(item: Item)
    ensures TextOf([item]) == HEADER + (item.line + "\n")
  {
    assert Ended([item][..0]) == [];
  }

  predicate Small(d: Device) {
    && d.number < 10 && |d.path| <= 25 && |d.classes| == 1 && |d.classes[0]| <= 25
    && d.identity == Identity("p", None, None, None, None, None)
    && |d.capabilities| == 10 && forall i :: 0 <= i < 10 ==> |d.capabilities[i]| <= 25
  }

  lemma SmallLine(d: Device)
    requires Small(d)
    ensures |LineOf(d)| <= FIELDS * 26
  {
    assert |Decimal(d.number)| == 1;
    JoinBound(FieldsOf(d), '\t', 25);
  }

  lemma SmallIsWritten(d: Device)
    requires Small(d) && ItemOf(d).fit
    ensures Encode([d]).Ok?
  {
    SmallLine(d);
    var item := ItemOf(d);
    assert ItemsOf([d]) == [item];
    OneLine(item);
    Utf8Bound(TextOf([item]));
    EncodeMeans([d]);
  }

  lemma SmallIsNotReadBack(d: Device)
    requires DeviceOk(d) && Small(d) && ItemOf(d).fit && !PlainPath(d.path)
    ensures DevicesOk([d]) && Encode([d]).Ok? && DecodeText(Encode([d]).value) != Ok([d])
  {
    SmallIsWritten(d);
    assert !PlainPath([d][0].path);
    RoundTripExactly([d], Encode([d]).value);
  }

  /** The encoder writes it, and the record does not read back. */
  lemma TabIsNotReadBack()
    ensures var ds := [OddDevice(Char('\t'))];
            DevicesOk(ds) && Encode(ds).Ok? && DecodeText(Encode(ds).value) != Ok(ds)
  {
    var d := OddDevice(Char('\t'));
    OddDeviceOk(Char('\t'));
    OddPath(Char('\t'));
    assert d.path[13] == Char('\t');
    SmallIsNotReadBack(d);
  }

  // ----- paths that are not UTF-8 -----

  /** A device as its record shows it. */
  function Shown(d: Device): Device {
    d.(path := Chars(Display(d.path)))
  }

  function ShownAll(ds: seq<Device>): (r: seq<Device>)
    ensures |r| == |ds| && forall i :: 0 <= i < |ds| ==> r[i] == Shown(ds[i])
  {
    seq(|ds|, i requires 0 <= i < |ds| => Shown(ds[i]))
  }

  function ShownPath(p: Path): (r: Path)
    ensures |r| == |p| && forall i :: 0 <= i < |p| ==> r[i] == if p[i].Char? then p[i] else Char('\U{FFFD}')
  {
    Chars(Display(p))
  }

  function ShownParts(parts: seq<Path>): (r: seq<Path>)
    ensures |r| == |parts| && forall i :: 0 <= i < |parts| ==> r[i] == ShownPath(parts[i])
  {
    seq(|parts|, i requires 0 <= i < |parts| => ShownPath(parts[i]))
  }

  lemma ShownJoin(a: Path, b: Path)
    ensures ShownPath(a + b) == ShownPath(a) + ShownPath(b)
  {
  }

  lemma ShownPartsJoin(a: seq<Path>, b: seq<Path>)
    ensures ShownParts(a + b) == ShownParts(a) + ShownParts(b)
  {
  }

  lemma ShownFirst(c: Piece, rest: seq<Path>)
    requires rest != []
    ensures ShownParts([[c] + rest[0]] + rest[1..]) == [ShownPath([c]) + ShownParts(rest)[0]] + ShownParts(rest)[1..]
  {
    ShownPartsJoin([[c] + rest[0]], rest[1..]);
    ShownJoin([c], rest[0]);
    assert ShownParts([[c] + rest[0]]) == [ShownPath([c] + rest[0])];
    assert ShownParts(rest[1..]) == ShownParts(rest)[1..];
  }

  lemma {:induction false} SplitShown(p: Path)
    ensures Split(ShownPath(p), Char('/')) == ShownParts(Split(p, Char('/')))
  {
    if p == [] {
      assert ShownPath(p) == [];
    } else {
      var shown, rest := ShownPath(p), Split(p[1..], Char('/'));
      SplitShown(p[1..]);
      assert shown[1..] == ShownPath(p[1..]);
      if p[0] == Char('/') {
        ShownPartsJoin([[]], rest);
        assert ShownParts([[]]) == [ShownPath([])] == [[]];
      } else {
        ShownFirst(p[0], rest);
        assert ShownPath([p[0]]) == [shown[0]];
      }
    }
  }

  /** No replacement character makes a path into one the checks name. */
  lemma ShownIs(p: Path, s: string)
    requires '\U{FFFD}' !in s
    ensures ShownPath(p) == Chars(s) <==> p == Chars(s)
  {
    if ShownPath(p) == Chars(s) {
      forall i | 0 <= i < |p| ensures p[i] == Char(s[i]) {
        assert ShownPath(p)[i] == Char(s[i]) && s[i] in s;
      }
    }
    if p == Chars(s) {
      assert ShownPath(p) == p;
    }
  }

  lemma {:induction false} NormalizedShown(parts: seq<Path>)
    ensures Normalized(ShownParts(parts)) == ShownParts(Normalized(parts))
  {
    if parts != [] {
      ShownIs(parts[0], "");
      ShownIs(parts[0], ".");
      NormalizedShown(parts[1..]);
      assert ShownParts(parts)[1..] == ShownParts(parts[1..]);
    }
  }

  lemma ShownPathOk(number: nat, p: Path)
    requires PathOk(number, p)
    ensures PathOk(number, ShownPath(p))
  {
    SplitShown(p);
    NormalizedShown(Split(p, Char('/')));
    var parts, name := Components(p), "event" + Decimal(number);
    assert '\U{FFFD}' !in name;
    ShownIs(parts[0], "sys");
    ShownIs(parts[1], "devices");
    ShownIs(parts[|parts| - 1], name);
    forall i | 0 <= i < |parts| ensures ShownPath(parts[i]) != Chars("..") {
      ShownIs(parts[i], "..");
    }
  }

  predicate NoSeparators(p: Path) {
    Char('\t') !in p && Char('\n') !in p
  }

  /**
   A path that is not UTF-8 is not refused: the record is accepted and reads back as the displayed
   path, which names no such device.
   */
  lemma ReadsBackAsShown(ds: seq<Device>, text: string)
    requires DevicesOk(ds) && Encode(ds) == Ok(text) && forall i :: 0 <= i < |ds| ==> NoSeparators(ds[i].path)
    ensures DecodeText(text) == Ok(ShownAll(ds))
  {
    var shown := ShownAll(ds);
    forall i | 0 <= i < |ds| ensures DeviceOk(shown[i]) && PlainPath(shown[i].path) && ItemOf(shown[i]) == ItemOf(ds[i]) {
      ShownDevice(ds[i]);
    }
    assert ItemsOf(shown) == ItemsOf(ds);
    PlainReadsBack(shown, text);
  }

  lemma ShownAround(before: string, bytes: nat, after: string)
    requires PlainText(before) && PlainText(after)
    ensures var p, q := Chars(before) + [Malformed(bytes)] + Chars(after), Chars(before) + [Char('\U{FFFD}')] + Chars(after);
            NoSeparators(p) && ShownPath(p) == q != p
  {
    var p, q := Chars(before) + [Malformed(bytes)] + Chars(after), Chars(before) + [Char('\U{FFFD}')] + Chars(after);
    assert p[|before|] != q[|before|];
    assert ShownPath(p) == q;
  }

  lemma OddShown(bytes: nat)
    ensures var d := OddDevice(Malformed(bytes));
            NoSeparators(d.path) && Shown(d) == OddDevice(Char('\U{FFFD}')) != d
  {
    OddPath(Malformed(bytes));
    OddPath(Char('\U{FFFD}'));
    ShownAround("/sys/devices/", bytes, "/event0");
  }

  lemma SmallReadsAsShown(d: Device)
    requires DeviceOk(d) && Small(d) && ItemOf(d).fit && NoSeparators(d.path)
    ensures DevicesOk([d]) && Encode([d]).Ok? && DecodeText(Encode([d]).value) == Ok([Shown(d)])
  {
    SmallIsWritten(d);
    ReadsBackAsShown([d], Encode([d]).value);
    assert ShownAll([d]) == [Shown(d)];
  }

  /** Such a record: the device is written, and another device is read, with no error on the way. */
  lemma MalformedIsMisread(bytes: nat)
    ensures var d, other := OddDevice(Malformed(bytes)), OddDevice(Char('\U{FFFD}'));
            DevicesOk([d]) && Encode([d]).Ok? && DecodeText(Encode([d]).value) == Ok([other]) && other != d
  {
    OddDeviceOk(Malformed(bytes));
    OddShown(bytes);
    SmallReadsAsShown(OddDevice(Malformed(bytes)));
  }

  lemma ShownDevice(d: Device)
    requires DeviceOk(d) && NoSeparators(d.path)
    ensures DeviceOk(Shown(d)) && PlainPath(Shown(d).path) && ItemOf(Shown(d)) == ItemOf(d)
  {
    ShownPathOk(d.number, d.path);
    assert Shown(d).path == ShownPath(d.path);
    assert Display(Shown(d).path) == Display(d.path);
    assert FieldsOf(Shown(d)) == FieldsOf(d);
  }

  // ----- the code -----

  method ValidateClasses(classes: seq<string>) returns (ok: bool)
    ensures ok <==> ClassesOk(classes)
  {
    if |classes| == 0 || |classes| > 6 {
      return false;
    }
    var previous := None;
    for i := 0 to |classes|
      invariant forall k :: 0 <= k < i ==> ClassIndex(classes[k]) < |CLASSES|
      invariant forall k, l :: 0 <= k < l < i ==> ClassIndex(classes[k]) < ClassIndex(classes[l])
      invariant previous == if i == 0 then None else Some(ClassIndex(classes[i - 1]))
    {
      var position := ClassIndex(classes[i]);
      if position == |CLASSES| || (previous.Some? && previous.value >= position) {
        return false;
      }
      previous := Some(position);
    }
    ok := true;
  }

  /** The encoder's loop, over what it looks at in each device. */
  method EncodeItems(items: seq<Item>) returns (r: Result<string>)
    ensures r == EncodePrefix(items, |items|)
  {
    var output := HEADER;
    var previous := None;
    for i := 0 to |items|
      invariant EncodePrefix(items, i) == Ok(output)
      invariant previous == if i == 0 then None else Some(items[i - 1].number)
    {
      var next := output + items[i].line + "\n";
      if (previous.Some? && previous.value >= items[i].number) || !items[i].fit {
        FaultStays(items, i + 1, |items|);
        return Err(Invalid);
      }
      if Utf8Length(next) > MAX_DEVICE_SET_BYTES {
        FaultStays(items, i + 1, |items|);
        return Err(TooLarge);
      }
      previous, output := Some(items[i].number), next;
    }
    r := Ok(output);
  }

  method EncodeDeviceSet(ds: seq<Device>) returns (r: Result<string>)
    ensures r == Encode(ds)
  {
    if ds == [] || |ds| > MAX_EVENT_DESCRIPTORS {
      return Err(TooLarge);
    }
    r := EncodeItems(ItemsOf(ds));
  }

  lemma {:induction false} FaultStays(items: seq<Item>, n: nat, m: nat)
    requires n <= m <= |items| && EncodePrefix(items, n).Err?
    ensures EncodePrefix(items, m) == EncodePrefix(items, n)
  {
    if n < m {
      FaultStays(items, n, m - 1);
    }
  }

  method DecodeDeviceSet(source: Option<string>, bytes: nat) returns (r: Result<seq<Device>>)
    ensures r == Decode(source, bytes)
    ensures r.Ok? ==> source.Some? && Encode(r.value) == Ok(source.value) && DevicesOk(r.value)
  {
    if Decode(source, bytes).Ok? { AcceptedIsCanonical(source, bytes); }
    if bytes > MAX_DEVICE_SET_BYTES {
      return Err(TooLarge);
    }
    if source.None? || !(HEADER <= source.value) {
      return Err(Invalid);
    }
    var body := source.value[|HEADER|..];
    if body == [] || body[|body| - 1] != '\n' {
      return Err(Invalid);
    }
    var lines := Lines(body);
    var parsed := ReadLines(lines);
    if parsed.Err? {
      return parsed;
    }
    var canonical := EncodeDeviceSet(parsed.value);
    if canonical.Err? {
      return Err(canonical.fault);
    }
    if canonical.value != source.value {
      return Err(Invalid);
    }
    r := parsed;
  }

  method ReadLines(lines: seq<string>) returns (r: Result<seq<Device>>)
    ensures r == ParsePrefix(Parsed(lines), |lines|)
  {
    var devices: seq<Device> := [];
    ghost var parsed := Parsed(lines);
    for i := 0 to |lines|
      invariant ParsePrefix(parsed, i) == Ok(devices)
    {
      if |devices| >= MAX_EVENT_DESCRIPTORS {
        ParseFaultStays(parsed, i + 1, |lines|);
        return Err(TooLarge);
      }
      var device := ParseLine(lines[i]);
      assert parsed[i] == device;
      if device.None? {
        ParseFaultStays(parsed, i + 1, |lines|);
        return Err(Invalid);
      }
      devices := devices + [device.value];
    }
    r := Ok(devices);
  }

  lemma {:induction false} ParseFaultStays(parsed: seq<Option<Device>>, n: nat, m: nat)
    requires n <= m <= |parsed| && ParsePrefix(parsed, n).Err?
    ensures ParsePrefix(parsed, m) == ParsePrefix(parsed, n)
  {
    if n < m {
      ParseFaultStays(parsed, n, m - 1);
    }
  }
}
