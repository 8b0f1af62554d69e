/** Saved objects: fields kept as JSON text in Kibana, and as plain JSON in packages. */
module Dashboards {
  import opened Options
  import opened Json
  import opened MapStr

  /** The fields kept as text, which of them holds the panels, and the key of what a panel embeds. */
  datatype Layout = Layout(fields: seq<string>, panels: string, config: string)

  predicate IsString(v: Json) {
    v.String? || v.Text?
  }

  /** The text that encoding writes for a value. */
  function Printed(v: Json): Json {
    Text(v, 0)
  }

  /** No field of `fs` is a dotted prefix of another, nor of `key`. */
  predicate Apart(key: string, fs: seq<string>) {
    forall i :: 0 <= i < |fs| ==> Unrelated(key, fs[i])
  }

  predicate AllApart(fs: seq<string>) {
    fs == [] || (Apart(fs[0], fs[1..]) && AllApart(fs[1..]))
  }

  /** Fields that do not overlap, with the panels among them. */
  predicate HasPanels(l: Layout) {
    AllApart(l.fields) && l.panels in l.fields
  }

  // ----- Encoding

  /** A field to be written as the text of its value: one that is there and is not a string yet. */
  predicate ToEncode(m: Fields, f: string) {
    Get(m, f).Ok? && !IsString(Get(m, f).value)
  }

  /** Every field of `fs` that is not a string yet, written as the text of its value. */
  function EncodeFields(m: Fields, fs: seq<string>): (r: (Fields, bool)) {
    if fs == [] then (m, false)
    else if !ToEncode(m, fs[0]) then EncodeFields(m, fs[1..])
    else
      PutFails(m, fs[0], Printed(Get(m, fs[0]).value));
      (EncodeFields(Put(m, fs[0], Printed(Get(m, fs[0]).value)).value, fs[1..]).0, true)
  }

  /** What encoding a saved object yields, and whether anything changed. */
  function EncodeObject(m: Fields, l: Layout): Option<(Fields, bool)>
    decreases Object(m), 2
  {
    var (m', panelsChanged) :- EncodePanels(m, l);
    var (r, changed) := EncodeFields(m', l.fields);
    Some((r, panelsChanged || changed))
  }

  function EncodePanels(m: Fields, l: Layout): Option<(Fields, bool)>
    decreases Object(m), 1
  {
    match Get(m, l.panels)
    case Err(KeyNotFound) => Some((m, false))
    case Err(NotAMap) => None
    case Ok(String(_)) => Some((m, false))
    case Ok(Text(_, _)) => Some((m, false))
    case Ok(List(panels)) =>
      var (panels', changed) :- EncodeList(panels, l);
      PutFails(m, l.panels, List(panels'));
      Some((Put(m, l.panels, List(panels')).value, changed))
    case Ok(_) => None
  }

  function EncodeList(panels: seq<Json>, l: Layout): (r: Option<(seq<Json>, bool)>)
    ensures r.Some? ==> |r.value.0| == |panels|
    decreases panels, 0
  {
    if panels == [] then Some(([], false)) else
    var (p, changed) :- EncodePanel(panels[0], l);
    var (rest, restChanged) :- EncodeList(panels[1..], l);
    Some(([p] + rest, changed || restChanged))
  }

  function EncodePanel(panel: Json, l: Layout): Option<(Json, bool)>
    decreases panel, 3
  {
    match panel
    case Object(fields) =>
      if l.config !in fields then Some((panel, false))
      else (
        match fields[l.config]
        case Object(config) =>
          var (config', changed) :- EncodeObject(config, l);
          Some((Object(fields[l.config := Object(config')]), changed))
        case _ => None)
    case _ => None
  }

  // ----- Decoding

  /** Values that the text of a field may stand for: an object or null, or a list of them. */
  predicate Decodable(v: Json) {
    v.Object? || v.Null? || (v.List? && forall i :: 0 <= i < |v.items| ==> v.items[i].Object? || v.items[i].Null?)
  }

  /** Every field of `fs` that is there, replaced by the value its text stands for. */
  function DecodeFields(m: Fields, fs: seq<string>): Option<Fields> {
    if fs == [] then Some(m) else
    match Get(m, fs[0])
    case Err(KeyNotFound) => DecodeFields(m, fs[1..])
    case Err(NotAMap) => None
    case Ok(Text(v, _)) =>
      if !Decodable(v) then None else
      PutFails(m, fs[0], v);
      DecodeFields(Put(m, fs[0], v).value, fs[1..])
    case Ok(_) => None
  }

  /** What decoding a saved object yields. */
  function DecodeObject(m: Fields, l: Layout): Option<Fields>
    requires HasPanels(l)
    decreases Object(m), 2
  {
    var m' :- DecodeFields(m, l.fields);
    DecodedPanelsAreInside(m, l);
    DecodePanels(m', Object(m), l)
  }

  /** The panels are part of `whole`, the object that is being decoded. */
  function DecodePanels(m: Fields, ghost whole: Json, l: Layout): Option<Fields>
    requires HasPanels(l)
    requires Get(m, l.panels).Ok? ==> Get(m, l.panels).value < whole
    decreases whole, 1
  {
    match Get(m, l.panels)
    case Err(KeyNotFound) => Some(m)
    case Err(NotAMap) => None
    case Ok(List(panels)) =>
      var panels' :- DecodeList(panels, l);
      PutFails(m, l.panels, List(panels'));
      Some(Put(m, l.panels, List(panels')).value)
    case Ok(_) => None
  }

  function DecodeList(panels: seq<Json>, l: Layout): (r: Option<seq<Json>>)
    requires HasPanels(l)
    ensures r.Some? ==> |r.value| == |panels|
    decreases panels, 0
  {
    if panels == [] then Some([]) else
    var p :- DecodePanel(panels[0], l);
    var rest :- DecodeList(panels[1..], l);
    Some([p] + rest)
  }

  function DecodePanel(panel: Json, l: Layout): Option<Json>
    requires HasPanels(l)
    decreases panel, 3
  {
    match panel
    case Object(fields) =>
      if l.config !in fields then Some(panel)
      else (
        match fields[l.config]
        case Object(config) =>
          var config' :- DecodeObject(config, l);
          Some(Object(fields[l.config := Object(config')]))
        case _ => None)
    case Null => Some(panel)
    case _ => None
  }

  // ----- The fields do not overlap

  lemma PrefixAgrees(p: string, k: string, n: nat)
    requires DottedPrefix(p, k) && n < |p|
    ensures n < |k| && p[n] == k[n]
  {
    assert |p| < |k| ==> k[..|p|][n] == k[n];
  }

  lemma Diverge(a: string, b: string, n: nat)
    requires n < |a| && n < |b| && a[n] != b[n]
    ensures Unrelated(a, b)
  {
    if DottedPrefix(a, b) {
      PrefixAgrees(a, b, n);
    }
    if DottedPrefix(b, a) {
      PrefixAgrees(b, a, n);
    }
  }

  lemma {:induction false} PairwiseApart(fs: seq<string>)
    requires forall i, j :: 0 <= i < j < |fs| ==> Unrelated(fs[i], fs[j])
    ensures AllApart(fs)
    decreases |fs|
  {
    if fs != [] {
      assert forall i :: 0 <= i < |fs[1..]| ==> fs[1..][i] == fs[i + 1];
      PairwiseApart(fs[1..]);
    }
  }

  lemma ApartTail(key: string, fs: seq<string>)
    requires Apart(key, fs) && fs != []
    ensures Apart(key, fs[1..]) && Unrelated(key, fs[0])
  {
    assert forall i :: 0 <= i < |fs[1..]| ==> fs[1..][i] == fs[i + 1];
  }

  // ----- What field by field encoding and decoding does to a key

  lemma {:induction false} EncodeFieldsFrame(m: Fields, fs: seq<string>, key: string)
    requires Apart(key, fs)
    ensures Get(EncodeFields(m, fs).0, key) == Get(m, key)
    decreases |fs|
  {
    if fs != [] {
      ApartTail(key, fs);
      var f := fs[0];
      if ToEncode(m, f) {
        var t := Printed(Get(m, f).value);
        PutFails(m, f, t);
        PutFrame(m, f, t, key);
        EncodeFieldsFrame(Put(m, f, t).value, fs[1..], key);
      } else {
        EncodeFieldsFrame(m, fs[1..], key);
      }
    }
  }

  lemma {:induction false} DecodeFieldsFrame(m: Fields, fs: seq<string>, key: string)
    requires Apart(key, fs) && DecodeFields(m, fs).Some?
    ensures Get(DecodeFields(m, fs).value, key) == Get(m, key)
    decreases |fs|
  {
    if fs != [] {
      ApartTail(key, fs);
      var f := fs[0];
      if Get(m, f).Ok? {
        var v := Get(m, f).value.value;
        PutFails(m, f, v);
        PutFrame(m, f, v, key);
        DecodeFieldsFrame(Put(m, f, v).value, fs[1..], key);
      } else {
        DecodeFieldsFrame(m, fs[1..], key);
      }
    }
  }

  /** What decoding finds in place of what is at a field. */
  function DecodedValue(r: Result<Json>): Result<Json> {
    match r
    case Ok(Text(v, _)) => Ok(v)
    case other => other
  }

  function EncodedValue(r: Result<Json>): Result<Json> {
    match r
    case Ok(v) => if v.String? || v.Text? then r else Ok(Text(v, 0))
    case Err(_) => r
  }

  lemma {:induction false} EncodeFieldsAt(m: Fields, fs: seq<string>, g: string)
    requires AllApart(fs) && g in fs
    ensures Get(EncodeFields(m, fs).0, g) == EncodedValue(Get(m, g))
    decreases |fs|
  {
    var f := fs[0];
    var t := if ToEncode(m, f) then Printed(Get(m, f).value) else Null;
    var m' := if ToEncode(m, f) then (PutFails(m, f, t); Put(m, f, t).value) else m;
    if ToEncode(m, f) {
      PutFails(m, f, t);
      PutThenGet(m, f, t);
    }
    if g == f {
      EncodeFieldsFrame(m', fs[1..], f);
    } else {
      if ToEncode(m, f) {
        ApartFromMember(f, fs[1..], g);
        PutFrame(m, f, t, g);
      }
      EncodeFieldsAt(m', fs[1..], g);
    }
  }

  lemma ApartFromMember(key: string, fs: seq<string>, g: string)
    requires Apart(key, fs) && g in fs
    ensures Unrelated(key, g)
  {
  }

  lemma {:induction false} DecodeFieldsAt(m: Fields, fs: seq<string>, g: string)
    requires AllApart(fs) && g in fs && DecodeFields(m, fs).Some?
    ensures Get(DecodeFields(m, fs).value, g) == DecodedValue(Get(m, g))
    ensures EncodedField(Get(m, g))
    decreases |fs|
  {
    var f := fs[0];
    if Get(m, f).Ok? {
      var v := Get(m, f).value.value;
      PutFails(m, f, v);
      PutThenGet(m, f, v);
      if g == f {
        DecodeFieldsFrame(Put(m, f, v).value, fs[1..], f);
      } else {
        ApartFromMember(f, fs[1..], g);
        PutFrame(m, f, v, g);
        DecodeFieldsAt(Put(m, f, v).value, fs[1..], g);
      }
    } else if g == f {
      DecodeFieldsFrame(m, fs[1..], f);
    } else {
      DecodeFieldsAt(m, fs[1..], g);
    }
  }

  /** A map or a list of maps, where null counts as a map. */
  predicate HoldsMaps(v: Json) {
    v.Object? || v.Null? || (v.List? && forall x | x in v.items :: x.Object? || x.Null?)
  }

  /** A field that decoding accepts: one that is missing or holds the text of something decodable. */
  predicate EncodedField(r: Result<Json>) {
    r == Err(KeyNotFound) || (r.Ok? && r.value.Text? && HoldsMaps(r.value.value))
  }

  /** A field that encoding can have produced. */
  predicate PrintedField(r: Result<Json>) {
    EncodedField(r) && (r.Ok? ==> r.value == Text(r.value.value, 0))
  }

  /** The panels that decoding goes on with are part of what it was given. */
  lemma {:induction false} DecodedPanelsAreInside(m: Fields, l: Layout)
    requires HasPanels(l) && DecodeFields(m, l.fields).Some?
    ensures var r := Get(DecodeFields(m, l.fields).value, l.panels);
            r.Ok? ==> r.value < Object(m)
  {
    DecodeFieldsAt(m, l.fields, l.panels);
  }

  // ----- Field by field, encoding and decoding undo each other

  lemma {:induction false} EncodeFieldsPut(m: Fields, fs: seq<string>, f: string, v: Json)
    requires Apart(f, fs) && Get(m, f).Ok? && Put(m, f, v).Ok?
    ensures Put(EncodeFields(m, fs).0, f, v) == Ok(EncodeFields(Put(m, f, v).value, fs).0)
    decreases |fs|
  {
    if fs != [] {
      ApartTail(f, fs);
      var g := fs[0];
      PutFrame(m, f, v, g);
      if ToEncode(m, g) {
        var t := Printed(Get(m, g).value);
        PutFails(m, g, t);
        PutsCommute(m, f, v, g, t);
        PutFrame(m, g, t, f);
        PutFails(Put(m, g, t).value, f, v);
        EncodeFieldsPut(Put(m, g, t).value, fs[1..], f, v);
      } else {
        EncodeFieldsPut(m, fs[1..], f, v);
      }
    }
  }

  /** A field that decoding can have produced. */
  predicate DecodedField(r: Result<Json>) {
    r == Err(KeyNotFound) || (r.Ok? && HoldsMaps(r.value))
  }

  lemma {:induction false} DecodeEncodedFields(m: Fields, fs: seq<string>)
    requires AllApart(fs) && forall f | f in fs :: DecodedField(Get(m, f))
    ensures DecodeFields(EncodeFields(m, fs).0, fs) == Some(m)
    decreases |fs|
  {
    if fs != [] {
      var f := fs[0];
      DecodeEncodedFields(m, fs[1..]);
      if Get(m, f).Ok? {
        var v := Get(m, f).value;
        PutFails(m, f, Printed(v));
        var m' := Put(m, f, Printed(v)).value;
        var x := EncodeFields(m', fs[1..]).0;
        PutThenGet(m, f, Printed(v));
        EncodeFieldsFrame(m', fs[1..], f);
        PutFails(m', f, v);
        PutTwice(m, f, Printed(v), v);
        PutSame(m, f);
        EncodeFieldsPut(m', fs[1..], f, v);
      } else {
        EncodeFieldsFrame(m, fs[1..], f);
      }
    }
  }

  lemma {:induction false} EncodeDecodedFields(m: Fields, fs: seq<string>)
    requires AllApart(fs) && DecodeFields(m, fs).Some? && forall f | f in fs :: PrintedField(Get(m, f))
    ensures EncodeFields(DecodeFields(m, fs).value, fs).0 == m
    decreases |fs|
  {
    if fs != [] {
      var f := fs[0];
      if Get(m, f).Ok? {
        var v := Get(m, f).value.value;
        PutFails(m, f, v);
        var m' := Put(m, f, v).value;
        PutThenGet(m, f, v);
        DecodeFieldsFrame(m', fs[1..], f);
        forall g | g in fs[1..] ensures Get(m', g) == Get(m, g) {
          ApartFromMember(f, fs[1..], g);
          PutFrame(m, f, v, g);
        }
        EncodeDecodedFields(m', fs[1..]);
        var y := DecodeFields(m', fs[1..]).value;
        PutFails(y, f, Printed(v));
        EncodeFieldsPut(y, fs[1..], f, Printed(v));
        PutTwice(m, f, v, Printed(v));
        PutSame(m, f);
      } else {
        DecodeFieldsFrame(m, fs[1..], f);
        EncodeDecodedFields(m, fs[1..]);
      }
    }
  }

  // ----- What Kibana keeps as text

  const PANELS := "attributes.panelsJSON"
  const EMBEDDABLE_CONFIG := "embeddableConfig"

  const FIELDS: seq<string> := [
    "attributes.controlGroupInput.ignoreParentSettingsJSON",
    "attributes.controlGroupInput.panelsJSON",
    "attributes.kibanaSavedObjectMeta.searchSourceJSON",
    "attributes.layerListJSON",
    "attributes.mapStateJSON",
    "attributes.optionsJSON",
    "attributes.uiStateJSON",
    "attributes.visState",
    PANELS
  ]

  const KIBANA := Layout(FIELDS, PANELS, EMBEDDABLE_CONFIG)

  lemma FieldsAreApart()
    ensures HasPanels(KIBANA)
  {
    var n := |"attributes."|;
    forall i, j | 0 <= i < j < |FIELDS| ensures Unrelated(FIELDS[i], FIELDS[j]) {
      if i == 0 && j == 1 {
        Diverge(FIELDS[0], FIELDS[1], |"attributes.controlGroupInput."|);
      } else {
        Diverge(FIELDS[i], FIELDS[j], n);
      }
    }
    PairwiseApart(FIELDS);
    assert FIELDS[8] == PANELS;
  }

  /** The fields that Kibana keeps as text, one by one. */
  lemma KibanaFields(f: string)
    ensures f in KIBANA.fields
       <==> || f == "attributes.controlGroupInput.ignoreParentSettingsJSON"
            || f == "attributes.controlGroupInput.panelsJSON"
            || f == "attributes.kibanaSavedObjectMeta.searchSourceJSON"
            || f == "attributes.layerListJSON"
            || f == "attributes.mapStateJSON"
            || f == "attributes.optionsJSON"
            || f == "attributes.panelsJSON"
            || f == "attributes.uiStateJSON"
            || f == "attributes.visState"
    ensures KIBANA.panels == "attributes.panelsJSON" && KIBANA.config == "embeddableConfig"
  {
    assert FIELDS[8] == PANELS;
  }
}
