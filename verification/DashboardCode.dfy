/** Encoding and decoding saved objects as the builder and the exporter do it, field by field and panel by panel. */
module DashboardCode {
  import opened Options
  import opened Json
  import opened MapStr
  import opened Dashboards

  /** encodeObjectMapStr */
  method EncodeObjectMapStr(input: Fields, l: Layout) returns (r: Option<(Fields, bool)>)
    ensures r == EncodeObject(input, l)
    decreases Object(input), 2
  {
    var panels := EncodeEmbeddedPanels(input, l);
    if panels.None? {
      return None;
    }
    var obj, changed := panels.value.0, panels.value.1;
    ghost var encoded, panelsChanged := EncodeFields(obj, l.fields), changed;
    for i := 0 to |l.fields|
      invariant EncodeFields(obj, l.fields[i..]).0 == encoded.0
      invariant (changed || EncodeFields(obj, l.fields[i..]).1) == (panelsChanged || encoded.1)
    {
      var v := l.fields[i];
      var out := Get(obj, v);
      // Nothing to encode under this field.
      if out.Err? {
        continue;
      }
      // A string stays, which makes encoding twice encoding once.
      if IsString(out.value) {
        continue;
      }
      PutFails(obj, v, Printed(out.value));
      obj := Put(obj, v, Printed(out.value)).value;
      changed := true;
    }
    return Some((obj, changed));
  }

  /** encodeEmbeddedPanels */
  method EncodeEmbeddedPanels(obj: Fields, l: Layout) returns (r: Option<(Fields, bool)>)
    ensures r == EncodePanels(obj, l)
    decreases Object(obj), 1
  {
    var found := Get(obj, l.panels);
    if found == Err(KeyNotFound) {
      return Some((obj, false));
    }
    if found.Err? {
      return None;
    }
    if IsString(found.value) {
      // Panels that are text are not looked into.
      return Some((obj, false));
    }
    if !found.value.List? {
      return None;
    }
    var panels := found.value.items;
    var embedded, changed := panels, false;
    assert panels[0..] == panels;
    assert EncodeList(panels, l) == EncodedAfter([], false, EncodeList(panels, l)) by {
      EncodedAfterNothing(EncodeList(panels, l));
    }
    for i := 0 to |panels|
      invariant |embedded| == |panels| && embedded[i..] == panels[i..]
      invariant EncodeList(panels, l) == EncodedAfter(embedded[..i], changed, EncodeList(panels[i..], l))
    {
      EncodeNext(panels, i, embedded[..i], changed, l);
      ghost var before := embedded[..i];
      var panel := panels[i];
      if !panel.Object? {
        return None;
      }
      if l.config !in panel.fields {
        assert embedded[..i + 1] == before + [panel];
        continue;
      }
      if !panel.fields[l.config].Object? {
        return None;
      }
      var config := EncodeObjectMapStr(panel.fields[l.config].fields, l);
      if config.None? {
        return None;
      }
      if config.value.1 {
        changed := true;
      }
      embedded := embedded[i := Object(panel.fields[l.config := Object(config.value.0)])];
      assert embedded[..i + 1] == before + [embedded[i]];
    }
    assert panels[|panels|..] == [];
    assert embedded[..|panels|] + [] == embedded;
    PutFails(obj, l.panels, List(embedded));
    return Some((Put(obj, l.panels, List(embedded)).value, changed));
  }

  /** decodeObject */
  method DecodeObjectMapStr(input: Fields, l: Layout) returns (r: Option<Fields>)
    requires HasPanels(l)
    ensures r == DecodeObject(input, l)
    decreases Object(input), 2
  {
    var obj := input;
    for i := 0 to |l.fields|
      invariant DecodeFields(obj, l.fields[i..]) == DecodeFields(input, l.fields)
    {
      var v := Get(obj, l.fields[i]);
      if v == Err(KeyNotFound) {
        continue;
      }
      if v.Err? || !v.value.Text? || !Decodable(v.value.value) {
        return None;
      }
      PutFails(obj, l.fields[i], v.value.value);
      obj := Put(obj, l.fields[i], v.value.value).value;
    }
    DecodedPanelsAreInside(input, l);
    r := DecodeEmbeddedPanels(obj, Object(input), l);
  }

  /** decodeEmbeddedPanels */
  method DecodeEmbeddedPanels(obj: Fields, ghost whole: Json, l: Layout) returns (r: Option<Fields>)
    requires HasPanels(l)
    requires Get(obj, l.panels).Ok? ==> Get(obj, l.panels).value < whole
    ensures r == DecodePanels(obj, whole, l)
    decreases whole, 1
  {
    var found := Get(obj, l.panels);
    if found == Err(KeyNotFound) {
      return Some(obj);
    }
    if found.Err? || !found.value.List? {
      return None;
    }
    var embedded := DecodeEmbeddedList(found.value.items, l);
    if embedded.None? {
      return None;
    }
    PutFails(obj, l.panels, List(embedded.value));
    return Some(Put(obj, l.panels, List(embedded.value)).value);
  }

  /** The loop over panels, which replaces them one by one. */
  method DecodeEmbeddedList(panels: seq<Json>, l: Layout) returns (r: Option<seq<Json>>)
    requires HasPanels(l)
    ensures r == DecodeList(panels, l)
    decreases panels, 0
  {
    var embedded := panels;
    assert panels[0..] == panels;
    DecodedAfterNothing(DecodeList(panels, l));
    for i := 0 to |panels|
      invariant |embedded| == |panels| && embedded[i..] == panels[i..]
      invariant DecodeList(panels, l) == DecodedAfter(embedded[..i], DecodeList(panels[i..], l))
    {
      DecodeNext(panels, i, embedded[..i], l);
      ghost var before := embedded[..i];
      var panel := DecodeEmbeddedPanel(panels[i], l);
      if panel.None? {
        return None;
      }
      embedded := embedded[i := panel.value];
      assert embedded[..i + 1] == before + [embedded[i]];
    }
    assert panels[|panels|..] == [];
    assert embedded[..|panels|] + [] == embedded;
    return Some(embedded);
  }

  /** One turn of the loop over panels. */
  method DecodeEmbeddedPanel(panel: Json, l: Layout) returns (r: Option<Json>)
    requires HasPanels(l)
    ensures r == DecodePanel(panel, l)
    decreases panel, 3
  {
    match panel {
      case Object(fields) =>
        if l.config !in fields {
          return Some(panel);
        }
        if !fields[l.config].Object? {
          return None;
        }
        var config := DecodeObjectMapStr(fields[l.config].fields, l);
        if config.None? {
          return None;
        }
        return Some(Object(fields[l.config := Object(config.value)]));
      case Null =>
        return Some(panel);
      case _ =>
        return None;
    }
  }

  // ----- Lists of panels, from some position on

  /** The outcome for a whole list, from the panels done so far and the outcome for the others. */
  function EncodedAfter(done: seq<Json>, changed: bool, r: Option<(seq<Json>, bool)>): Option<(seq<Json>, bool)> {
    if r.None? then None else Some((done + r.value.0, changed || r.value.1))
  }

  function DecodedAfter(done: seq<Json>, r: Option<seq<Json>>): Option<seq<Json>> {
    if r.None? then None else Some(done + r.value)
  }

  lemma EncodedAfterNothing(r: Option<(seq<Json>, bool)>)
    ensures EncodedAfter([], false, r) == r
  {
    assert r.Some? ==> [] + r.value.0 == r.value.0;
  }

  lemma DecodedAfterNothing(r: Option<seq<Json>>)
    ensures DecodedAfter([], r) == r
  {
    assert r.Some? ==> [] + r.value == r.value;
  }

  lemma {:induction false} EncodeNext(panels: seq<Json>, i: nat, done: seq<Json>, changed: bool, l: Layout)
    requires i < |panels|
    ensures var p, rest := EncodePanel(panels[i], l), EncodeList(panels[i + 1..], l);
            EncodedAfter(done, changed, EncodeList(panels[i..], l))
              == if p.None? then None else EncodedAfter(done + [p.value.0], changed || p.value.1, rest)
  {
    assert panels[i..][0] == panels[i] && panels[i..][1..] == panels[i + 1..];
    var p, rest := EncodePanel(panels[i], l), EncodeList(panels[i + 1..], l);
    if p.Some? && rest.Some? {
      assert done + ([p.value.0] + rest.value.0) == (done + [p.value.0]) + rest.value.0;
    }
  }

  lemma {:induction false} DecodeNext(panels: seq<Json>, i: nat, done: seq<Json>, l: Layout)
    requires HasPanels(l) && i < |panels|
    ensures var p, rest := DecodePanel(panels[i], l), DecodeList(panels[i + 1..], l);
            DecodedAfter(done, DecodeList(panels[i..], l))
              == if p.None? then None else DecodedAfter(done + [p.value], rest)
  {
    assert panels[i..][0] == panels[i] && panels[i..][1..] == panels[i + 1..];
    var p, rest := DecodePanel(panels[i], l), DecodeList(panels[i + 1..], l);
    if p.Some? && rest.Some? {
      assert done + ([p.value] + rest.value) == (done + [p.value]) + rest.value;
    }
  }
}
