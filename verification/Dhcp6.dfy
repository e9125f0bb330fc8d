/**
 * The DHCPv6 option parser (crates/agent/src/discovery.rs; sections 21.1 and
 * 21.16 of RFC 8415), proved to accept exactly its grammar.
 */
module Dhcp6 {
  import opened Base

  type Bytes = seq<Byte>

  datatype Error =
    | ShortHeader
    | TruncatedOption
    | ShortEnterprise
    | TruncatedClassLength
    | TruncatedClass
    | TruncatedOptionHeader

  datatype Result<+T> = Ok(value: T) | Err(error: Error)

  /** What a two-byte length can measure. */
  type Item = b: Bytes | |b| < 0x1_0000

  datatype Opt = Opt(code: U16, value: Item)

  const CLIENT_ID := 1
  const OPTION_REQUEST := 6
  const VENDOR_CLASS := 16
  const VENDOR_SPECIFIC := 17
  const CLIENT_FQDN := 39

  function WordBytes(w: U16): (b: Bytes)
    ensures |b| == 2 && Word(b[0], b[1]) == w
  {
    [w / 256, w % 256]
  }

  lemma WordIsInjective(high: Byte, low: Byte)
    ensures WordBytes(Word(high, low)) == [high, low]
  {
  }

  /** A list of strings, each after its two-byte length. */
  function EncodeList(items: seq<Item>): Bytes {
    if |items| == 0 then []
    else WordBytes(|items[0]|) + items[0] + EncodeList(items[1..])
  }

  /** The list from a position to the end. */
  function DecodeList(bytes: Bytes, at: nat): Result<seq<Item>>
    requires at <= |bytes|
    decreases |bytes| - at
  {
    if at == |bytes| then Ok([])
    else if |bytes| < at + 2 then Err(TruncatedClassLength)
    else
      var next := at + 2 + Word(bytes[at], bytes[at + 1]) as nat;
      if |bytes| < next then Err(TruncatedClass)
      else Prepended(bytes[at + 2..next], DecodeList(bytes, next))
  }

  function Prepended<T>(first: T, rest: Result<seq<T>>): Result<seq<T>> {
    match rest
    case Ok(more) => Ok([first] + more)
    case Err(e) => Err(e)
  }

  lemma ItemRecomposes(bytes: Bytes, at: nat, next: nat)
    requires at + 2 <= |bytes| && next == at + 2 + Word(bytes[at], bytes[at + 1]) as nat <= |bytes|
    ensures WordBytes(next - at - 2) + bytes[at + 2..next] + bytes[next..] == bytes[at..]
  {
    WordIsInjective(bytes[at], bytes[at + 1]);
  }

  lemma {:induction false} DecodedListEncodes(bytes: Bytes, at: nat)
    requires at <= |bytes| && DecodeList(bytes, at).Ok?
    ensures EncodeList(DecodeList(bytes, at).value) == bytes[at..]
    decreases |bytes| - at
  {
    if at < |bytes| {
      var next := at + 2 + Word(bytes[at], bytes[at + 1]) as nat;
      DecodedListEncodes(bytes, next);
      ItemRecomposes(bytes, at, next);
      assert DecodeList(bytes, at).value[1..] == DecodeList(bytes, next).value;
    }
  }

  lemma EncodedItemParts(bytes: Bytes, at: nat, item: Item, rest: Bytes)
    requires at <= |bytes| && bytes[at..] == WordBytes(|item|) + item + rest
    ensures var next := at + 2 + |item|;
            && next <= |bytes| && Word(bytes[at], bytes[at + 1]) == |item|
            && bytes[at + 2..next] == item && bytes[next..] == rest
  {
    var from := bytes[at..];
    assert bytes[at] == from[0] && bytes[at + 1] == from[1];
    assert bytes[at + 2..at + 2 + |item|] == from[2..2 + |item|] == item;
    assert bytes[at + 2 + |item|..] == from[2 + |item|..] == rest;
  }

  lemma {:induction false} EncodedListDecodes(bytes: Bytes, at: nat, items: seq<Item>)
    requires at <= |bytes| && bytes[at..] == EncodeList(items)
    ensures DecodeList(bytes, at) == Ok(items)
    decreases |items|
  {
    if |items| > 0 {
      EncodedItemParts(bytes, at, items[0], EncodeList(items[1..]));
      EncodedListDecodes(bytes, at + 2 + |items[0]|, items[1..]);
      assert items == [items[0]] + items[1..];
    }
  }

  /** What is wrong with an option by itself: only a vendor class can be. */
  function Fault(o: Opt): Option<Error> {
    if o.code != VENDOR_CLASS then None
    else if |o.value| < 4 then Some(ShortEnterprise)
    else
      match DecodeList(o.value, 4)
      case Ok(_) => None
      case Err(e) => Some(e)
  }

  /** An option as the grammar has it: a vendor class is an enterprise number and a list of strings. */
  ghost predicate WellFormed(o: Opt) {
    o.code == VENDOR_CLASS ==> |o.value| >= 4 && IsList(o.value[4..])
  }

  ghost predicate IsList(bytes: Bytes) {
    exists items :: bytes == EncodeList(items)
  }

  lemma FaultlessExactly(o: Opt)
    ensures Fault(o).None? <==> WellFormed(o)
  {
    if o.code == VENDOR_CLASS && |o.value| >= 4 {
      if Fault(o).None? {
        DecodedListEncodes(o.value, 4);
      }
      if items :| o.value[4..] == EncodeList(items) {
        EncodedListDecodes(o.value, 4, items);
      }
    }
  }

  function EncodeOption(o: Opt): Bytes {
    WordBytes(o.code) + WordBytes(|o.value|) + o.value
  }

  function Encode(opts: seq<Opt>): Bytes {
    if |opts| == 0 then [] else EncodeOption(opts[0]) + Encode(opts[1..])
  }

  /** The options from a position to the end, or what is wrong with the first bad one. */
  function OptionsOf(bytes: Bytes, at: nat): Result<seq<Opt>>
    requires at <= |bytes|
    decreases |bytes| - at
  {
    if |bytes| < at + 4 then
      if at == |bytes| then Ok([]) else Err(TruncatedOptionHeader)
    else
      var next := at + 4 + Word(bytes[at + 2], bytes[at + 3]) as nat;
      if |bytes| < next then Err(TruncatedOption)
      else
        var o := Opt(Word(bytes[at], bytes[at + 1]), bytes[at + 4..next]);
        if Fault(o).Some? then Err(Fault(o).value)
        else Prepended(o, OptionsOf(bytes, next))
  }

  lemma EncodedOptionParts(bytes: Bytes, at: nat, o: Opt, rest: Bytes)
    requires at <= |bytes| && bytes[at..] == EncodeOption(o) + rest
    ensures var next := at + 4 + |o.value|;
            && next <= |bytes|
            && Word(bytes[at], bytes[at + 1]) == o.code && Word(bytes[at + 2], bytes[at + 3]) == |o.value|
            && bytes[at + 4..next] == o.value && bytes[next..] == rest
  {
    var from := bytes[at..];
    assert from[..2] == WordBytes(o.code) && from[2..4] == WordBytes(|o.value|);
    assert bytes[at] == from[..2][0] && bytes[at + 1] == from[..2][1];
    assert bytes[at + 2] == from[2..4][0] && bytes[at + 3] == from[2..4][1];
    assert bytes[at + 4..at + 4 + |o.value|] == from[4..4 + |o.value|] == o.value;
    assert bytes[at + 4 + |o.value|..] == from[4 + |o.value|..] == rest;
  }

  /** Options that can be read one after the other from a position to the end. */
  ghost predicate Spells(bytes: Bytes, at: nat, opts: seq<Opt>)
    requires at <= |bytes|
    decreases |opts|
  {
    if |opts| == 0 then at == |bytes|
    else
      var next := at + 4 + |opts[0].value|;
      && next <= |bytes|
      && Word(bytes[at], bytes[at + 1]) == opts[0].code && Word(bytes[at + 2], bytes[at + 3]) == |opts[0].value|
      && bytes[at + 4..next] == opts[0].value
      && Spells(bytes, next, opts[1..])
  }

  lemma {:induction false} EncodedOptionsSpell(bytes: Bytes, at: nat, opts: seq<Opt>)
    requires at <= |bytes| && bytes[at..] == Encode(opts)
    ensures Spells(bytes, at, opts)
    decreases |opts|
  {
    if |opts| > 0 {
      EncodedOptionParts(bytes, at, opts[0], Encode(opts[1..]));
      EncodedOptionsSpell(bytes, at + 4 + |opts[0].value|, opts[1..]);
    }
  }

  lemma {:induction false} SpelledOptionsParse(bytes: Bytes, at: nat, opts: seq<Opt>)
    requires at <= |bytes| && Spells(bytes, at, opts)
    requires forall o <- opts :: Fault(o).None?
    ensures OptionsOf(bytes, at) == Ok(opts)
    decreases |opts|
  {
    if |opts| > 0 {
      SpelledOptionsParse(bytes, at + 4 + |opts[0].value|, opts[1..]);
      assert opts == [opts[0]] + opts[1..];
    }
  }

  lemma {:induction false} EncodedOptionsParse(bytes: Bytes, at: nat, opts: seq<Opt>)
    requires at <= |bytes| && bytes[at..] == Encode(opts)
    requires forall o <- opts :: WellFormed(o)
    ensures OptionsOf(bytes, at) == Ok(opts)
  {
    forall o <- opts {
      FaultlessExactly(o);
    }
    EncodedOptionsSpell(bytes, at, opts);
    SpelledOptionsParse(bytes, at, opts);
  }

  lemma OptionRecomposes(bytes: Bytes, at: nat, next: nat)
    requires at + 4 <= |bytes| && next == at + 4 + Word(bytes[at + 2], bytes[at + 3]) as nat <= |bytes|
    ensures EncodeOption(Opt(Word(bytes[at], bytes[at + 1]), bytes[at + 4..next])) + bytes[next..] == bytes[at..]
  {
    WordIsInjective(bytes[at], bytes[at + 1]);
    WordIsInjective(bytes[at + 2], bytes[at + 3]);
  }

  lemma {:induction false} ParsedOptionsEncode(bytes: Bytes, at: nat)
    requires at <= |bytes| && OptionsOf(bytes, at).Ok?
    ensures forall o <- OptionsOf(bytes, at).value :: WellFormed(o)
    ensures Encode(OptionsOf(bytes, at).value) == bytes[at..]
    decreases |bytes| - at
  {
    if at < |bytes| {
      var next := at + 4 + Word(bytes[at + 2], bytes[at + 3]) as nat;
      FaultlessExactly(Opt(Word(bytes[at], bytes[at + 1]), bytes[at + 4..next]));
      ParsedOptionsEncode(bytes, next);
      OptionRecomposes(bytes, at, next);
      assert OptionsOf(bytes, at).value[1..] == OptionsOf(bytes, next).value;
    }
  }

  /** The grammar: a four-byte header and a concatenation of well-formed options. */
  ghost predicate IsMessage(payload: Bytes, opts: seq<Opt>) {
    && |payload| >= 4
    && (forall o <- opts :: WellFormed(o))
    && payload[4..] == Encode(opts)
  }

  /** Big-endian words; an odd last byte is ignored. */
  function Words(value: Bytes): seq<nat> {
    if |value| < 2 then [] else [Word(value[0], value[1])] + Words(value[2..])
  }

  type Label = b: Bytes | 0 < |b| < 256 witness [0]

  /** The labels from a position on; a name that ends in the middle of one has none at all. */
  function Labels(bytes: Bytes, at: nat): Option<seq<Label>>
    requires at <= |bytes|
    decreases |bytes| - at
  {
    if at == |bytes| || bytes[at] == 0 then Some([])
    else
      var next := at + 1 + bytes[at] as nat;
      if |bytes| < next then None
      else LabelBefore(bytes[at + 1..next], Labels(bytes, next))
  }

  function LabelBefore(first: Label, rest: Option<seq<Label>>): Option<seq<Label>> {
    match rest
    case Some(labels) => Some([first] + labels)
    case None => None
  }

  /** Labels in wire format, with what follows them. */
  function EncodeLabels(labels: seq<Label>, rest: Bytes): Bytes {
    if |labels| == 0 then rest else [|labels[0]|] + labels[0] + EncodeLabels(labels[1..], rest)
  }

  lemma EncodedLabelParts(bytes: Bytes, at: nat, part: Label, rest: Bytes)
    requires at <= |bytes| && bytes[at..] == [|part|] + part + rest
    ensures var next := at + 1 + |part|;
            next <= |bytes| && bytes[at] == |part| && bytes[at + 1..next] == part && bytes[next..] == rest
  {
    var from := bytes[at..];
    assert bytes[at] == from[0];
    assert bytes[at + 1..at + 1 + |part|] == from[1..1 + |part|] == part;
    assert bytes[at + 1 + |part|..] == from[1 + |part|..] == rest;
  }

  /** Whatever follows the root label is ignored. */
  lemma {:induction false} EncodedLabelsDecode(bytes: Bytes, at: nat, labels: seq<Label>, rest: Bytes)
    requires |rest| == 0 || rest[0] == 0
    requires at <= |bytes| && bytes[at..] == EncodeLabels(labels, rest)
    ensures Labels(bytes, at) == Some(labels)
    decreases |labels|
  {
    if |labels| > 0 {
      EncodedLabelParts(bytes, at, labels[0], EncodeLabels(labels[1..], rest));
      EncodedLabelsDecode(bytes, at + 1 + |labels[0]|, labels[1..], rest);
      assert labels == [labels[0]] + labels[1..];
    } else if |rest| > 0 {
      assert bytes[at] == rest[0];
    }
  }

  /** The strings that are text, for some notion of text. */
  function Texts(items: seq<Bytes>, text: Bytes -> bool): seq<Bytes> {
    if |items| == 0 then []
    else if text(items[0]) then [items[0]] + Texts(items[1..], text)
    else Texts(items[1..], text)
  }

  /** What is recorded of a message. A name that could not be read is recorded as empty. */
  datatype Attributes = Attributes(
    messageType: Byte,
    duid: Option<Bytes>,
    requested: Option<seq<nat>>,
    enterprise: Option<Bytes>,
    classes: Option<seq<Bytes>>,
    specific: Option<Bytes>,
    name: Option<seq<Bytes>>)

  /** The labels so far and those still to come that are text, or none. */
  function Named(labels: seq<Bytes>, more: Option<seq<Label>>, text: Bytes -> bool): seq<Bytes> {
    match more
    case Some(ls) => labels + Texts(ls, text)
    case None => []
  }

  function NameOf(bytes: Bytes, utf8: Bytes -> bool): seq<Bytes> {
    Named([], Labels(bytes, 0), utf8)
  }

  /** What a well-formed option adds or replaces. */
  function Apply(a: Attributes, o: Opt, utf8: Bytes -> bool, printable: Bytes -> bool): Attributes {
    if Fault(o).Some? then a
    else if o.code == CLIENT_ID then a.(duid := Some(o.value))
    else if o.code == OPTION_REQUEST then a.(requested := Some(Words(o.value)))
    else if o.code == VENDOR_CLASS then
      a.(enterprise := Some(o.value[..4]), classes := Some(Texts(DecodeList(o.value, 4).value, printable)))
    else if o.code == VENDOR_SPECIFIC then a.(specific := Some(o.value))
    else if o.code == CLIENT_FQDN && |o.value| > 1 then a.(name := Some(NameOf(o.value[1..], utf8)))
    else a
  }

  function ApplyAll(a: Attributes, opts: seq<Opt>, utf8: Bytes -> bool, printable: Bytes -> bool): Attributes
    decreases |opts|
  {
    if |opts| == 0 then a else ApplyAll(Apply(a, opts[0], utf8, printable), opts[1..], utf8, printable)
  }

  function NoAttributes(messageType: Byte): Attributes {
    Attributes(messageType, None, None, None, None, None, None)
  }

  lemma {:induction false} TextsAfter(before: seq<Bytes>, item: Bytes, items: seq<Bytes>, text: Bytes -> bool)
    ensures before + Texts([item] + items, text) ==
            (if text(item) then before + [item] else before) + Texts(items, text)
  {
    assert ([item] + items)[1..] == items;
    if text(item) {
      assert before + ([item] + Texts(items, text)) == before + [item] + Texts(items, text);
    }
  }

  /** The strings so far and those still to come that are text. */
  function Added(classes: seq<Bytes>, items: Result<seq<Item>>, text: Bytes -> bool): Result<seq<Bytes>> {
    match items
    case Ok(more) => Ok(classes + Texts(more, text))
    case Err(e) => Err(e)
  }

  lemma AddedOne(classes: seq<Bytes>, item: Item, rest: Result<seq<Item>>, text: Bytes -> bool)
    ensures Added(classes, Prepended(item, rest), text) ==
            Added(if text(item) then classes + [item] else classes, rest, text)
  {
    if rest.Ok? {
      TextsAfter(classes, item, rest.value, text);
    }
  }

  /** The vendor class strings of an option value, read with a moving cursor. */
  method ParseClasses(value: Bytes, printable: Bytes -> bool) returns (r: Result<seq<Bytes>>)
    requires |value| >= 4
    ensures r == Added([], DecodeList(value, 4), printable)
  {
    var cursor := 4;
    var classes: seq<Bytes> := [];
    while cursor < |value|
      invariant 4 <= cursor <= |value|
      invariant Added(classes, DecodeList(value, cursor), printable) == Added([], DecodeList(value, 4), printable)
    {
      if cursor + 2 > |value| {
        return Err(TruncatedClassLength);
      }
      var length: nat := Word(value[cursor], value[cursor + 1]);
      cursor := cursor + 2;
      if cursor + length > |value| {
        return Err(TruncatedClass);
      }
      var data := value[cursor..cursor + length];
      AddedOne(classes, data, DecodeList(value, cursor + length), printable);
      if printable(data) {
        classes := classes + [data];
      }
      cursor := cursor + length;
    }
    assert classes + [] == classes;
    r := Ok(classes);
  }

  lemma NamedOne(labels: seq<Bytes>, part: Label, rest: Option<seq<Label>>, text: Bytes -> bool)
    ensures Named(labels, LabelBefore(part, rest), text) ==
            Named(if text(part) then labels + [part] else labels, rest, text)
  {
    if rest.Some? {
      TextsAfter(labels, part, rest.value, text);
    }
  }

  lemma NamedNoMore(labels: seq<Bytes>, text: Bytes -> bool)
    ensures Named(labels, Some([]), text) == labels
  {
    assert labels + [] == labels;
  }

  /** What the label at an index does to a name. */
  lemma NameStep(value: Bytes, index: nat, labels: seq<Bytes>, utf8: Bytes -> bool)
    requires index < |value|
    ensures var next := index + 1 + value[index] as nat;
            Named(labels, Labels(value, index), utf8) ==
            if value[index] == 0 then labels
            else if next > |value| then []
            else if utf8(value[index + 1..next]) then Named(labels + [value[index + 1..next]], Labels(value, next), utf8)
            else Named(labels, Labels(value, next), utf8)
  {
    var next := index + 1 + value[index] as nat;
    if value[index] == 0 {
      NamedNoMore(labels, utf8);
    } else if next <= |value| {
      NamedOne(labels, value[index + 1..next], Labels(value, next), utf8);
    }
  }

  /** The name in wire format, read with a moving index; a truncated label makes it empty. */
  method ParseName(value: Bytes, utf8: Bytes -> bool) returns (labels: seq<Bytes>)
    ensures labels == NameOf(value, utf8)
  {
    labels := [];
    var index := 0;
    while index < |value|
      invariant index <= |value|
      invariant Named(labels, Labels(value, index), utf8) == NameOf(value, utf8)
    {
      NameStep(value, index, labels, utf8);
      var length: nat := value[index];
      if length == 0 {
        return;
      }
      index := index + 1;
      if index + length > |value| {
        return [];
      }
      var data := value[index..index + length];
      if utf8(data) {
        labels := labels + [data];
      }
      index := index + length;
    }
    NamedNoMore(labels, utf8);
  }

  method Record(a: Attributes, o: Opt, utf8: Bytes -> bool, printable: Bytes -> bool) returns (r: Result<Attributes>)
    ensures r == match Fault(o)
                 case None => Ok(Apply(a, o, utf8, printable))
                 case Some(e) => Err(e)
  {
    if o.code == CLIENT_ID {
      return Ok(a.(duid := Some(o.value)));
    } else if o.code == OPTION_REQUEST {
      return Ok(a.(requested := Some(Words(o.value))));
    } else if o.code == VENDOR_CLASS {
      if |o.value| < 4 {
        return Err(ShortEnterprise);
      }
      var classes := ParseClasses(o.value, printable);
      match classes {
        case Ok(texts) =>
          assert texts == Texts(DecodeList(o.value, 4).value, printable);
          return Ok(a.(enterprise := Some(o.value[..4]), classes := Some(texts)));
        case Err(e) => return Err(e);
      }
    } else if o.code == VENDOR_SPECIFIC {
      return Ok(a.(specific := Some(o.value)));
    } else if o.code == CLIENT_FQDN && |o.value| > 1 {
      var name := ParseName(o.value[1..], utf8);
      return Ok(a.(name := Some(name)));
    }
    return Ok(a);
  }

  /** What the parser computes: the options in order, each recorded over the ones before. */
  function Parsed(payload: Bytes, utf8: Bytes -> bool, printable: Bytes -> bool): Result<Attributes> {
    if |payload| < 4 then Err(ShortHeader)
    else Recorded(NoAttributes(payload[0]), OptionsOf(payload, 4), utf8, printable)
  }

  function Recorded(a: Attributes, opts: Result<seq<Opt>>, utf8: Bytes -> bool, printable: Bytes -> bool)
    : Result<Attributes>
  {
    match opts
    case Ok(os) => Ok(ApplyAll(a, os, utf8, printable))
    case Err(e) => Err(e)
  }

  lemma {:induction false} ApplyAllOfCons(a: Attributes, o: Opt, opts: seq<Opt>, utf8: Bytes -> bool, printable: Bytes -> bool)
    ensures ApplyAll(a, [o] + opts, utf8, printable) == ApplyAll(Apply(a, o, utf8, printable), opts, utf8, printable)
  {
    assert ([o] + opts)[1..] == opts;
  }

  lemma RecordedOne(a: Attributes, o: Opt, rest: Result<seq<Opt>>, utf8: Bytes -> bool, printable: Bytes -> bool)
    ensures Recorded(a, Prepended(o, rest), utf8, printable) ==
            Recorded(Apply(a, o, utf8, printable), rest, utf8, printable)
  {
    if rest.Ok? {
      ApplyAllOfCons(a, o, rest.value, utf8, printable);
    }
  }

  /** The option loop, with its index. */
  method Parse(payload: Bytes, utf8: Bytes -> bool, printable: Bytes -> bool) returns (r: Result<Attributes>)
    ensures r == Parsed(payload, utf8, printable)
  {
    if |payload| < 4 {
      return Err(ShortHeader);
    }
    var attributes := NoAttributes(payload[0]);
    var index := 4;
    while index + 4 <= |payload|
      invariant 4 <= index <= |payload|
      invariant Recorded(attributes, OptionsOf(payload, index), utf8, printable) == Parsed(payload, utf8, printable)
    {
      var code := Word(payload[index], payload[index + 1]);
      var length: nat := Word(payload[index + 2], payload[index + 3]);
      index := index + 4;
      if index + length > |payload| {
        return Err(TruncatedOption);
      }
      var o := Opt(code, payload[index..index + length]);
      RecordedOne(attributes, o, OptionsOf(payload, index + length), utf8, printable);
      var recorded := Record(attributes, o, utf8, printable);
      if recorded.Err? {
        return Err(recorded.error);
      }
      attributes := recorded.value;
      index := index + length;
    }
    if index != |payload| {
      return Err(TruncatedOptionHeader);
    }
    r := Ok(attributes);
  }

  /** Accepted payloads are exactly the messages of the grammar. */
  lemma AcceptsExactly(payload: Bytes, utf8: Bytes -> bool, printable: Bytes -> bool)
    ensures Parsed(payload, utf8, printable).Ok? <==> exists opts :: IsMessage(payload, opts)
  {
    if |payload| >= 4 {
      if OptionsOf(payload, 4).Ok? {
        ParsedOptionsEncode(payload, 4);
        assert IsMessage(payload, OptionsOf(payload, 4).value);
      }
      if opts :| IsMessage(payload, opts) {
        EncodedOptionsParse(payload, 4, opts);
      }
    }
  }

  /** The value of the last option with a code. */
  function Last(opts: seq<Opt>, code: U16): Option<Item> {
    if |opts| == 0 then None
    else if opts[|opts| - 1].code == code then Some(opts[|opts| - 1].value)
    else Last(opts[..|opts| - 1], code)
  }

  /** The last name option that holds more than its flags. */
  function LastName(opts: seq<Opt>): Option<Item> {
    if |opts| == 0 then None
    else if opts[|opts| - 1].code == CLIENT_FQDN && |opts[|opts| - 1].value| > 1 then Some(opts[|opts| - 1].value)
    else LastName(opts[..|opts| - 1])
  }

  /** Every recorded attribute comes from the last option of its kind, and is missing exactly without one. */
  predicate Reflects(a: Attributes, opts: seq<Opt>, utf8: Bytes -> bool, printable: Bytes -> bool) {
    && a.duid == Last(opts, CLIENT_ID)
    && a.specific == Last(opts, VENDOR_SPECIFIC)
    && a.requested == (match Last(opts, OPTION_REQUEST) case None => None case Some(v) => Some(Words(v)))
    && ReflectsClass(a, Last(opts, VENDOR_CLASS), printable)
    && ReflectsName(a, LastName(opts), utf8)
  }

  predicate ReflectsClass(a: Attributes, last: Option<Item>, printable: Bytes -> bool) {
    match last
    case None => a.enterprise == None && a.classes == None
    case Some(v) =>
      && |v| >= 4 && DecodeList(v, 4).Ok?
      && a.enterprise == Some(v[..4])
      && a.classes == Some(Texts(DecodeList(v, 4).value, printable))
  }

  predicate ReflectsName(a: Attributes, last: Option<Item>, utf8: Bytes -> bool) {
    match last
    case None => a.name == None
    case Some(v) => |v| > 1 && a.name == Some(NameOf(v[1..], utf8))
  }

  lemma ApplyReflects(a: Attributes, opts: seq<Opt>, o: Opt, utf8: Bytes -> bool, printable: Bytes -> bool)
    requires Reflects(a, opts, utf8, printable) && Fault(o).None?
    ensures Reflects(Apply(a, o, utf8, printable), opts + [o], utf8, printable)
  {
    assert (opts + [o])[..|opts|] == opts;
  }

  lemma {:induction false} ApplyAllAppended(a: Attributes, opts: seq<Opt>, o: Opt, utf8: Bytes -> bool, printable: Bytes -> bool)
    ensures ApplyAll(a, opts + [o], utf8, printable) == Apply(ApplyAll(a, opts, utf8, printable), o, utf8, printable)
    decreases |opts|
  {
    if |opts| == 0 {
      assert opts + [o] == [o] + [];
      ApplyAllOfCons(a, o, [], utf8, printable);
    } else {
      assert opts + [o] == [opts[0]] + (opts[1..] + [o]);
      ApplyAllOfCons(a, opts[0], opts[1..] + [o], utf8, printable);
      ApplyAllAppended(Apply(a, opts[0], utf8, printable), opts[1..], o, utf8, printable);
    }
  }

  lemma {:induction false} LastWins(messageType: Byte, opts: seq<Opt>, utf8: Bytes -> bool, printable: Bytes -> bool)
    requires forall o <- opts :: Fault(o).None?
    ensures var a := ApplyAll(NoAttributes(messageType), opts, utf8, printable);
            a.messageType == messageType && Reflects(a, opts, utf8, printable)
  {
    if |opts| > 0 {
      var before, o := opts[..|opts| - 1], opts[|opts| - 1];
      LastWins(messageType, before, utf8, printable);
      ApplyReflects(ApplyAll(NoAttributes(messageType), before, utf8, printable), before, o, utf8, printable);
      ApplyAllAppended(NoAttributes(messageType), before, o, utf8, printable);
      assert opts == before + [o];
    }
  }

  /** Parsing an encoded message recovers the last value of every recorded option. */
  lemma {:induction false} RoundTrip(header: Bytes, opts: seq<Opt>, utf8: Bytes -> bool, printable: Bytes -> bool)
    requires |header| == 4 && forall o <- opts :: WellFormed(o)
    ensures var r := Parsed(header + Encode(opts), utf8, printable);
            r.Ok? && r.value.messageType == header[0] && Reflects(r.value, opts, utf8, printable)
  {
    var payload := header + Encode(opts);
    assert payload[4..] == Encode(opts);
    forall o <- opts {
      FaultlessExactly(o);
    }
    EncodedOptionsParse(payload, 4, opts);
    LastWins(header[0], opts, utf8, printable);
  }
}
