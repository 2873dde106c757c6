/**
 One property at a time: how the Notion adapter writes a plain value as a property object and
 reads a property object back.

 A float64 is known by its integer part and its fraction, a time.Time is known by the text of its calendar day, and the two
 library calls whose results depend on formatting tables (fmt.Sprintf("%v") and time.Parse) are
 the fields of Runtime.
 */
module NotionValues {
  import opened Wrappers

  datatype Float = Float(whole: int, fraction: real)

  datatype Json =
    | JNull
    | JBool(b: bool)
    | JNum(n: Float)
    | JStr(s: string)
    | JArr(items: seq<Json>)
    | JObj(fields: map<string, Json>)

  /** The plain values of a SyncableRecord. */
  datatype Value =
    | Text(s: string)
    | Texts(names: seq<string>)
    | Num(n: Float)
    | Flag(b: bool)
    | Instant(day: string)

  datatype PropType =
    | Title | RichText | Select | Status | MultiSelect | Date | Number | Checkbox
    | Url | Email | PhoneNumber | Relation | People
    | Unsupported(name: string)

  datatype Runtime = Runtime(
    sprint: Value -> string,                 // the text of a value that is not a string
    calendarDay: string -> Option<string>)   // RFC 3339 or 2006-01-02 text to its day's text

  /** The day of an instant, written out, parses back to the same day. */
  ghost predicate CalendarLaw(rt: Runtime) {
    forall s: string, d :: rt.calendarDay(s) == Some(d) ==> d != "" && rt.calendarDay(d) == Some(d)
  }

  ghost predicate ProperInstant(rt: Runtime, v: Value) {
    v.Instant? ==> v.day != "" && rt.calendarDay(v.day) == Some(v.day)
  }

  function Key(t: PropType): string {
    match t
    case Title => "title"
    case RichText => "rich_text"
    case Select => "select"
    case Status => "status"
    case MultiSelect => "multi_select"
    case Date => "date"
    case Number => "number"
    case Checkbox => "checkbox"
    case Url => "url"
    case Email => "email"
    case PhoneNumber => "phone_number"
    case Relation => "relation"
    case People => "people"
    case Unsupported(name) => name
  }

  // ---------------------------------------------------------------- coercions

  function ToStr(rt: Runtime, v: Value): string {
    if v.Text? then v.s else rt.sprint(v)
  }

  function ToStrSlice(v: Value): seq<string> {
    if v.Texts? then v.names else []
  }

  function ToDay(rt: Runtime, v: Value): Option<string> {
    match v
    case Instant(day) => Some(day)
    case Text(s) => if s == "" then None else rt.calendarDay(s)
    case _ => None
  }

  // ---------------------------------------------------------------- lists

  function Option1(key: string, name: string): Json {
    JObj(map[key := JStr(name)])
  }

  function OptionList(key: string, names: seq<string>): seq<Json> {
    seq(|names|, i requires 0 <= i < |names| => Option1(key, names[i]))
  }

  /** The strings under key among the items; other items are skipped. */
  function NamesUnder(key: string, items: seq<Json>): seq<string> {
    if items == [] then []
    else
      var last := items[|items| - 1];
      NamesUnder(key, items[..|items| - 1])
      + if last.JObj? && key in last.fields && last.fields[key].JStr? then [last.fields[key].s] else []
  }

  /** serializeNotionProperty's loop over option names and ids. */
  method WriteOptions(key: string, names: seq<string>) returns (opts: seq<Json>)
    ensures opts == OptionList(key, names)
  {
    opts := [];
    for i := 0 to |names|
      invariant |opts| == i && forall k :: 0 <= k < i ==> opts[k] == Option1(key, names[k])
    {
      opts := opts + [Option1(key, names[i])];
    }
  }

  /** deserializeNotionProperty's loop over option names and ids. */
  method ReadOptions(key: string, items: seq<Json>) returns (names: seq<string>)
    ensures names == NamesUnder(key, items)
    ensures forall ns :: items == OptionList(key, ns) ==> names == ns
  {
    names := [];
    for i := 0 to |items|
      invariant names == NamesUnder(key, items[..i])
    {
      assert items[..i + 1][..i] == items[..i];
      var it := items[i];
      if it.JObj? && key in it.fields && it.fields[key].JStr? {
        names := names + [it.fields[key].s];
      }
    }
    assert items[..|items|] == items;
    forall ns | items == OptionList(key, ns)
      ensures names == ns
    {
      NamesRoundTrip(key, ns);
    }
  }

  lemma {:induction false} NamesRoundTrip(key: string, names: seq<string>)
    ensures NamesUnder(key, OptionList(key, names)) == names
  {
    if names != [] {
      var n := |names| - 1;
      assert OptionList(key, names)[..n] == OptionList(key, names[..n]);
      NamesRoundTrip(key, names[..n]);
      assert names == names[..n] + [names[n]];
    }
  }

  // ---------------------------------------------------------------- rich text

  function RichTextArray(s: string): seq<Json> {
    if s == "" then []
    else [JObj(map["type" := JStr("text"), "text" := JObj(map["content" := JStr(s)])])]
  }

  /** The text of one rich-text item: plain_text where it is given, else text.content. */
  function ItemText(it: Json): string {
    if !it.JObj? then ""
    else if "plain_text" in it.fields && it.fields["plain_text"].JStr? then it.fields["plain_text"].s
    else if "text" in it.fields && it.fields["text"].JObj?
            && "content" in it.fields["text"].fields && it.fields["text"].fields["content"].JStr?
    then it.fields["text"].fields["content"].s
    else ""
  }

  function Concatenated(items: seq<Json>): string {
    if items == [] then "" else Concatenated(items[..|items| - 1]) + ItemText(items[|items| - 1])
  }

  function NonEmptyText(s: string): Option<Value> {
    if s == "" then None else Some(Text(s))
  }

  /** richTextArrayPlain's loop. */
  method RichTextArrayPlain(raw: Json) returns (out: Option<Value>)
    ensures out == PlainText(raw)
  {
    if !raw.JArr? || raw.items == [] {
      return None;
    }
    var s := "";
    for i := 0 to |raw.items|
      invariant s == Concatenated(raw.items[..i])
    {
      assert raw.items[..i + 1][..i] == raw.items[..i];
      s := s + ItemText(raw.items[i]);
    }
    assert raw.items[..|raw.items|] == raw.items;
    return NonEmptyText(s);
  }

  function PlainText(raw: Json): Option<Value> {
    if raw.JArr? then NonEmptyText(Concatenated(raw.items)) else None
  }

  // ---------------------------------------------------------------- properties

  function NullIfEmpty(s: string): Json {
    if s == "" then JNull else JStr(s)
  }

  /** The value written under Key(t), or None for an unsupported property type. */
  function Content(rt: Runtime, t: PropType, v: Value): Option<Json> {
    match t
    case Title => Some(JArr(RichTextArray(ToStr(rt, v))))
    case RichText => Some(JArr(RichTextArray(ToStr(rt, v))))
    case Select => Some(if ToStr(rt, v) == "" then JNull else Option1("name", ToStr(rt, v)))
    case Status => Some(if ToStr(rt, v) == "" then JNull else Option1("name", ToStr(rt, v)))
    case MultiSelect => Some(JArr(OptionList("name", ToStrSlice(v))))
    case Date =>
      (match ToDay(rt, v)
       case None => Some(JNull)
       case Some(day) => Some(Option1("start", day)))
    case Number => Some(if v.Num? then JNum(v.n) else JNull)
    case Checkbox => Some(JBool(v.Flag? && v.b))
    case Url => Some(NullIfEmpty(ToStr(rt, v)))
    case Email => Some(NullIfEmpty(ToStr(rt, v)))
    case PhoneNumber => Some(NullIfEmpty(ToStr(rt, v)))
    case Relation => Some(JArr(OptionList("id", ToStrSlice(v))))
    case People => Some(JArr(OptionList("id", ToStrSlice(v))))
    case Unsupported(_) => None
  }

  function Serialize(rt: Runtime, t: PropType, v: Value): Option<Json> {
    match Content(rt, t, v)
    case None => None
    case Some(content) => Some(JObj(map[Key(t) := content]))
  }

  function StringUnder(j: Json, key: string): Option<string> {
    if j.JObj? && key in j.fields && j.fields[key].JStr? then Some(j.fields[key].s) else None
  }

  function TextOf(s: Option<string>): Option<Value> {
    if s.Some? then Some(Text(s.value)) else None
  }

  /** deserializeNotionProperty, on what a property object holds under Key(t). */
  function Extract(t: PropType, content: Json): Option<Value> {
    match t
    case Title => PlainText(content)
    case RichText => PlainText(content)
    case Select => TextOf(StringUnder(content, "name"))
    case Status => TextOf(StringUnder(content, "name"))
    case MultiSelect => if content.JArr? then Some(Texts(NamesUnder("name", content.items))) else None
    case Date =>
      (match StringUnder(content, "start")
       case None => None
       case Some(s) => NonEmptyText(s))
    case Number => if content.JNum? then Some(Num(content.n)) else None
    case Checkbox => if content.JBool? then Some(Flag(content.b)) else None
    case Url => if content.JStr? then NonEmptyText(content.s) else None
    case Email => if content.JStr? then NonEmptyText(content.s) else None
    case PhoneNumber => if content.JStr? then NonEmptyText(content.s) else None
    case Relation => if content.JArr? then Some(Texts(NamesUnder("id", content.items))) else None
    case People => if content.JArr? then Some(Texts(NamesUnder("id", content.items))) else None
    case Unsupported(_) => None
  }

  function Deserialize(t: PropType, prop: map<string, Json>): Option<Value> {
    if Key(t) in prop then Extract(t, prop[Key(t)]) else None
  }

  // ---------------------------------------------------------------- what comes back

  /** Notion returns what it was sent; a rich-text item keeps its text, either as text.content
      or as plain_text, and the property may carry further keys. */
  ghost predicate Returns(t: PropType, sent: Json, got: Json) {
    && sent.JObj? && got.JObj? && Key(t) in sent.fields && Key(t) in got.fields
    && (if t.Title? || t.RichText? then SameTexts(sent.fields[Key(t)], got.fields[Key(t)])
        else got.fields[Key(t)] == sent.fields[Key(t)])
  }

  ghost predicate SameTexts(sent: Json, got: Json) {
    && sent.JArr? && got.JArr? && |got.items| == |sent.items|
    && forall i :: 0 <= i < |sent.items| ==> ItemText(got.items[i]) == ItemText(sent.items[i])
  }

  lemma {:induction false} SameTextsConcatenate(sent: seq<Json>, got: seq<Json>)
    requires |got| == |sent| && forall i :: 0 <= i < |sent| ==> ItemText(got[i]) == ItemText(sent[i])
    ensures Concatenated(got) == Concatenated(sent)
  {
    if sent != [] {
      SameTextsConcatenate(sent[..|sent| - 1], got[..|got| - 1]);
    }
  }

  lemma {:induction false} RichTextRoundTrip(s: string)
    ensures PlainText(JArr(RichTextArray(s))) == NonEmptyText(s)
  {
    if s != "" {
      var items := RichTextArray(s);
      assert "plain_text" !in items[0].fields;
      assert ItemText(items[0]) == s;
      assert items[..0] == [];
      assert Concatenated(items) == Concatenated(items[..0]) + ItemText(items[0]) == "" + s == s;
    }
  }

  /** The value a field has after it went out and came back, or None when nothing comes back. */
  function Echo(rt: Runtime, t: PropType, v: Value): Option<Value> {
    match t
    case Title => NonEmptyText(ToStr(rt, v))
    case RichText => NonEmptyText(ToStr(rt, v))
    case Select => NonEmptyText(ToStr(rt, v))
    case Status => NonEmptyText(ToStr(rt, v))
    case Url => NonEmptyText(ToStr(rt, v))
    case Email => NonEmptyText(ToStr(rt, v))
    case PhoneNumber => NonEmptyText(ToStr(rt, v))
    case MultiSelect => Some(Texts(ToStrSlice(v)))
    case Relation => Some(Texts(ToStrSlice(v)))
    case People => Some(Texts(ToStrSlice(v)))
    case Date => TextOf(ToDay(rt, v))
    case Number => if v.Num? then Some(v) else None
    case Checkbox => Some(Flag(v.Flag? && v.b))
    case Unsupported(_) => None
  }

  /** Reading back what was written yields exactly Echo, whatever form the rich text returns in. */
  lemma {:induction false} SerializeThenDeserialize(rt: Runtime, t: PropType, v: Value, got: Json)
    requires CalendarLaw(rt) && ProperInstant(rt, v)
    requires Serialize(rt, t, v).Some? && Returns(t, Serialize(rt, t, v).value, got)
    ensures Deserialize(t, got.fields) == Echo(rt, t, v)
  {
    var content := Content(rt, t, v).value;
    match t
    case Title =>
      RichTextRoundTrip(ToStr(rt, v));
      SameTextsConcatenate(content.items, got.fields[Key(t)].items);
    case RichText =>
      RichTextRoundTrip(ToStr(rt, v));
      SameTextsConcatenate(content.items, got.fields[Key(t)].items);
    case MultiSelect => NamesRoundTrip("name", ToStrSlice(v));
    case Relation => NamesRoundTrip("id", ToStrSlice(v));
    case People => NamesRoundTrip("id", ToStrSlice(v));
    case _ =>
  }

  /** The values each property type is for. */
  predicate Normal(rt: Runtime, t: PropType, v: Value) {
    match t
    case MultiSelect => v.Texts?
    case Relation => v.Texts?
    case People => v.Texts?
    case Date => v.Text? && v.s != "" && rt.calendarDay(v.s) == Some(v.s)
    case Number => v.Num?
    case Checkbox => v.Flag?
    case Unsupported(_) => false
    case _ => v.Text? && v.s != ""
  }

  /** The values of which nothing comes back. */
  predicate Blank(rt: Runtime, t: PropType, v: Value) {
    match t
    case MultiSelect => false
    case Relation => false
    case People => false
    case Checkbox => false
    case Date => ToDay(rt, v).None?
    case Number => !v.Num?
    case Unsupported(_) => true
    case _ => ToStr(rt, v) == ""
  }

  /** deserialize(serialize(v)) is v exactly on the normal values, is nothing exactly on the
      blank ones, and writing what came back writes the same property again. */
  lemma {:induction false} RoundTrip(rt: Runtime, t: PropType, v: Value, got: Json)
    requires CalendarLaw(rt) && ProperInstant(rt, v)
    requires Serialize(rt, t, v).Some? && Returns(t, Serialize(rt, t, v).value, got)
    ensures Deserialize(t, got.fields) == Some(v) <==> Normal(rt, t, v)
    ensures Deserialize(t, got.fields) == None <==> Blank(rt, t, v)
    ensures Deserialize(t, got.fields).Some? ==>
              Serialize(rt, t, Deserialize(t, got.fields).value) == Serialize(rt, t, v)
  {
    SerializeThenDeserialize(rt, t, v, got);
  }
}
