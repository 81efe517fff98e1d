/** Subscriptions as JSON objects of text fields, and the text by which requests and acknowledgements are compared. */
module SubscriptionCodec {
  import opened Wrappers
  import opened Text

  datatype Subscription = Subscription(channel: string, instId: string, instType: string)

  /** Fields in the order in which the object lists them, sorted by key when it is written. */
  type Fields = seq<(string, string)>

  function Optional(key: string, value: string): Fields {
    if value == "" then [] else [(key, value)]
  }

  /** A field that is empty is left out, except the channel. */
  function ToJson(sub: Subscription): Fields {
    [("channel", sub.channel)] + Optional("instId", sub.instId) + Optional("instType", sub.instType)
  }

  /** A field that is missing keeps its initial value. */
  function Get(fields: Fields, key: string): string {
    if fields == [] then "" else if fields[0].0 == key then fields[0].1 else Get(fields[1..], key)
  }

  function FromJson(fields: Fields): Subscription {
    Subscription(Get(fields, "channel"), Get(fields, "instId"), Get(fields, "instType"))
  }

  lemma GetSteps(key: string, value: string, rest: Fields, wanted: string)
    ensures Get([(key, value)] + rest, wanted) == if key == wanted then value else Get(rest, wanted)
  {
    assert ([(key, value)] + rest)[1..] == rest;
  }

  lemma GetOptional(key: string, value: string, rest: Fields, wanted: string)
    ensures Get(Optional(key, value) + rest, wanted) == if key == wanted && value != "" then value else Get(rest, wanted)
  {
    GetSteps(key, value, rest, wanted);
    assert [] + rest == rest;
  }

  lemma CodecRoundTrip(sub: Subscription)
    ensures FromJson(ToJson(sub)) == sub
  {
    var id, kind := Optional("instId", sub.instId), Optional("instType", sub.instType);
    Associates([("channel", sub.channel)], id, kind);
    Associates(id, kind, []);
    assert kind + [] == kind;
    forall wanted ensures Get(ToJson(sub), wanted) == if wanted == "channel" then sub.channel else Get(id + kind, wanted) {
      GetSteps("channel", sub.channel, id + kind, wanted);
    }
    GetOptional("instId", sub.instId, kind, "instId");
    GetOptional("instId", sub.instId, kind, "instType");
    GetOptional("instType", sub.instType, [], "instId");
    GetOptional("instType", sub.instType, [], "instType");
  }

  function Hex(d: nat): char
    requires d < 16
  {
    "0123456789abcdef"[d]
  }

  /** One character inside a written string. */
  function Escape(c: char): string {
    match c
    case '\"' => ['\\', '\"']
    case '\\' => ['\\', '\\']
    case '\n' => ['\\', 'n']
    case '\r' => ['\\', 'r']
    case '\t' => ['\\', 't']
    case _ =>
      if c as int == 8 then ['\\', 'b']
      else if c as int == 12 then ['\\', 'f']
      else if c as int < 32 then ['\\', 'u', '0', '0', Hex(c as int / 16), Hex(c as int % 16)]
      else [c]
  }

  function Escaped(s: string): string {
    if s == "" then "" else Escape(s[0]) + Escaped(s[1..])
  }

  function Quoted(s: string): string { ['\"'] + Escaped(s) + ['\"'] }

  function WriteFields(fields: Fields): string
    requires fields != []
  {
    Quoted(fields[0].0) + [':'] + Quoted(fields[0].1) + if |fields| == 1 then ['}'] else [','] + WriteFields(fields[1..])
  }

  /** The text of an object, without white space. */
  function Dump(fields: Fields): string {
    if fields == [] then ['{', '}'] else ['{'] + WriteFields(fields)
  }

  function HexValue(c: char): Option<nat> {
    if '0' <= c <= '9' then Some(c as int - '0' as int)
    else if 'a' <= c <= 'f' then Some(c as int - 'a' as int + 10)
    else None
  }

  /** The character that an escape stands for and the length of the escape; of the long form only characters below 256 are read. */
  function Unescape(text: string): Option<(char, nat)> {
    if |text| < 2 || text[0] != '\\' then None
    else match text[1]
      case '\"' => Some(('\"', 2))
      case '\\' => Some(('\\', 2))
      case 'n' => Some(('\n', 2))
      case 'r' => Some(('\r', 2))
      case 't' => Some(('\t', 2))
      case 'b' => Some((8 as char, 2))
      case 'f' => Some((12 as char, 2))
      case 'u' =>
        if |text| < 6 || text[2] != '0' || text[3] != '0' || HexValue(text[4]).None? || HexValue(text[5]).None? then None
        else Some(((HexValue(text[4]).value * 16 + HexValue(text[5]).value) as char, 6))
      case _ => None
  }

  /** Reading the rest of a string behind its opening quote: its characters and what follows the closing quote. */
  function ReadString(text: string): (read: Option<(string, string)>)
    ensures read.Some? ==> |read.value.1| < |text|
    decreases |text|
  {
    if text == "" then None
    else if text[0] == '\"' then Some(("", text[1..]))
    else
      var next := if text[0] == '\\' then Unescape(text) else Some((text[0], 1));
      if next.None? || next.value.1 > |text| || next.value.1 == 0 then None
      else
        var rest := ReadString(text[next.value.1..]);
        if rest.None? then None else Some(([next.value.0] + rest.value.0, rest.value.1))
  }

  function ReadQuoted(text: string): (read: Option<(string, string)>)
    ensures read.Some? ==> |read.value.1| < |text|
  {
    if text == "" || text[0] != '\"' then None else ReadString(text[1..])
  }

  function ReadFields(text: string): Option<Fields>
    decreases |text|
  {
    var key := ReadQuoted(text);
    if key.None? || key.value.1 == "" || key.value.1[0] != ':' then None
    else
      var value := ReadQuoted(key.value.1[1..]);
      if value.None? || value.value.1 == "" then None
      else if value.value.1 == "}" then Some([(key.value.0, value.value.0)])
      else if value.value.1[0] != ',' then None
      else
        var rest := ReadFields(value.value.1[1..]);
        if rest.None? then None else Some([(key.value.0, value.value.0)] + rest.value)
  }

  /** An independent reader of objects of text fields. */
  function Parse(text: string): Option<Fields> {
    if text == "{}" then Some([])
    else if text == "" || text[0] != '{' then None
    else ReadFields(text[1..])
  }

  lemma HexReads(d: nat)
    requires d < 16
    ensures HexValue(Hex(d)) == Some(d)
  {
  }

  lemma LongEscapeReads(c: nat, rest: string)
    requires c < 32
    ensures Unescape(['\\', 'u', '0', '0', Hex(c / 16), Hex(c % 16)] + rest) == Some((c as char, 6))
  {
    HexReads(c / 16);
    HexReads(c % 16);
    assert (c / 16) * 16 + c % 16 == c;
  }

  lemma EscapeReads(c: char, rest: string)
    ensures Escape(c)[0] != '\"'
    ensures if Escape(c)[0] == '\\' then Unescape(Escape(c) + rest) == Some((c, |Escape(c)|)) else Escape(c) == [c]
  {
    if c as int < 32 {
      LongEscapeReads(c as int, rest);
    }
  }

  lemma {:induction false} StringReadsBack(s: string, rest: string)
    ensures ReadString(Escaped(s) + (['\"'] + rest)) == Some((s, rest))
  {
    if s == "" {
      assert Escaped(s) + (['\"'] + rest) == ['\"'] + rest;
    } else {
      var tail := Escaped(s[1..]) + (['\"'] + rest);
      StringReadsBack(s[1..], rest);
      EscapeReads(s[0], tail);
      Associates(Escape(s[0]), Escaped(s[1..]), ['\"'] + rest);
      assert (Escape(s[0]) + tail)[|Escape(s[0])|..] == tail;
      assert [s[0]] + s[1..] == s;
    }
  }

  lemma QuotedReadsBack(s: string, rest: string)
    ensures ReadQuoted(Quoted(s) + rest) == Some((s, rest))
  {
    StringReadsBack(s, rest);
    assert (Quoted(s) + rest)[1..] == Escaped(s) + (['\"'] + rest);
  }

  lemma FieldReadsBack(key: string, value: string, end: string)
    ensures ReadQuoted(Quoted(key) + [':'] + Quoted(value) + end) == Some((key, [':'] + (Quoted(value) + end)))
    ensures ReadQuoted(([':'] + (Quoted(value) + end))[1..]) == Some((value, end))
  {
    Associates(Quoted(key) + [':'], Quoted(value), end);
    Associates(Quoted(key), [':'], Quoted(value) + end);
    QuotedReadsBack(key, [':'] + (Quoted(value) + end));
    assert ([':'] + (Quoted(value) + end))[1..] == Quoted(value) + end;
    QuotedReadsBack(value, end);
  }

  /** One field and what stands behind it. */
  lemma FieldsStep(key: string, value: string, end: string)
    requires end != ""
    ensures
      var read := ReadFields(Quoted(key) + [':'] + Quoted(value) + end);
      && (end == ['}'] ==> read == Some([(key, value)]))
      && (end[0] == ',' && ReadFields(end[1..]).Some? ==> read == Some([(key, value)] + ReadFields(end[1..]).value))
  {
    FieldReadsBack(key, value, end);
  }

  lemma {:induction false} FieldsReadBack(fields: Fields)
    requires fields != []
    ensures ReadFields(WriteFields(fields)) == Some(fields)
  {
    var end := if |fields| == 1 then ['}'] else [','] + WriteFields(fields[1..]);
    FieldsStep(fields[0].0, fields[0].1, end);
    if |fields| == 1 {
      assert fields == [(fields[0].0, fields[0].1)];
    } else {
      assert end[1..] == WriteFields(fields[1..]);
      FieldsReadBack(fields[1..]);
      assert fields == [(fields[0].0, fields[0].1)] + fields[1..];
    }
  }

  /** Nothing is lost in the text, whatever characters the fields contain. */
  lemma DumpReadsBack(fields: Fields)
    ensures Parse(Dump(fields)) == Some(fields)
  {
    if fields != [] {
      FieldsReadBack(fields);
      assert Dump(fields)[1..] == WriteFields(fields);
      assert Dump(fields)[1] == '\"';
    }
  }

  /** The text that stands for a subscription in the queues. */
  function RequestText(sub: Subscription): string { Dump(ToJson(sub)) }

  /** Comparing texts is comparing subscriptions, so the queues may be read as queues of subscriptions. */
  lemma TextsIdentify(a: Subscription, b: Subscription)
    ensures RequestText(a) == RequestText(b) <==> a == b
  {
    DumpReadsBack(ToJson(a));
    DumpReadsBack(ToJson(b));
    CodecRoundTrip(a);
    CodecRoundTrip(b);
  }

  /**
   An acknowledgement is recorded under the request's own text exactly if its echo agrees on the three
   fields, whatever else it carries and in whatever order.
   */
  lemma EchoMatches(sub: Subscription, echo: Fields)
    ensures RequestText(FromJson(echo)) == RequestText(sub) <==>
            Get(echo, "channel") == sub.channel && Get(echo, "instId") == sub.instId && Get(echo, "instType") == sub.instType
  {
    TextsIdentify(FromJson(echo), sub);
  }

  /** And what is sent for a queued text is the subscription it was made from. */
  lemma SentAsQueued(sub: Subscription)
    ensures Parse(RequestText(sub)).Some? && FromJson(Parse(RequestText(sub)).value) == sub
  {
    DumpReadsBack(ToJson(sub));
    CodecRoundTrip(sub);
  }
}
