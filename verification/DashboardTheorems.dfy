/** Decoding and encoding saved objects undo each other, on exactly which objects, at every depth of panels. */
module DashboardTheorems {
  import opened Options
  import opened Json
  import opened Sequences
  import opened MapStr
  import opened Dashboards

  // ----- Fully decoded and fully encoded objects

  ghost predicate Decoded(m: Fields, l: Layout)
    decreases Object(m)
  {
    && (forall f | f in l.fields :: DecodedField(Get(m, f)))
    && (Get(m, l.panels).Ok? ==>
          Get(m, l.panels).value.List? && DecodedPanels(Get(m, l.panels).value.items, l))
  }

  ghost predicate DecodedPanels(panels: seq<Json>, l: Layout)
    decreases panels
  {
    panels == [] || (DecodedPanel(panels[0], l) && DecodedPanels(panels[1..], l))
  }

  ghost predicate DecodedPanel(p: Json, l: Layout)
    decreases p
  {
    p.Object? && (l.config in p.fields ==>
      p.fields[l.config].Object? && Decoded(p.fields[l.config].fields, l))
  }

  ghost predicate Encoded(m: Fields, l: Layout)
    decreases Object(m)
  {
    && (forall f | f in l.fields :: PrintedField(Get(m, f)))
    && (Get(m, l.panels).Ok? && Get(m, l.panels).value.Text? ==>
          Get(m, l.panels).value.value.List? && EncodedPanels(Get(m, l.panels).value.value.items, l))
  }

  ghost predicate EncodedPanels(panels: seq<Json>, l: Layout)
    decreases panels
  {
    panels == [] || (EncodedPanel(panels[0], l) && EncodedPanels(panels[1..], l))
  }

  ghost predicate EncodedPanel(p: Json, l: Layout)
    decreases p
  {
    p.Object? && (l.config in p.fields ==>
      p.fields[l.config].Object? && Encoded(p.fields[l.config].fields, l))
  }

  // ----- The panels field among the others

  lemma {:induction false} PanelsApart(fs: seq<string>, panels: string, f: string)
    requires AllApart(fs) && panels in fs && f in fs && f != panels
    ensures Unrelated(panels, f)
    decreases |fs|
  {
    if fs[0] == panels {
      ApartFromMember(panels, fs[1..], f);
    } else if fs[0] == f {
      ApartFromMember(f, fs[1..], panels);
    } else {
      PanelsApart(fs[1..], panels, f);
    }
  }

  /** Replacing the panels leaves the other fields as they are and can be undone. */
  lemma ReplacePanels(m: Fields, panels: seq<Json>, panels': seq<Json>, l: Layout) returns (r: Fields)
    requires HasPanels(l)
    requires Get(m, l.panels) == Ok(List(panels))
    ensures Put(m, l.panels, List(panels')) == Ok(r) && Put(r, l.panels, List(panels)) == Ok(m)
    ensures Get(r, l.panels) == Ok(List(panels'))
    ensures forall f | f in l.fields && f != l.panels :: Get(r, f) == Get(m, f)
  {
    PutFails(m, l.panels, List(panels'));
    r := Put(m, l.panels, List(panels')).value;
    PutThenGet(m, l.panels, List(panels'));
    PutTwice(m, l.panels, List(panels'), List(panels));
    PutSame(m, l.panels);
    forall f | f in l.fields && f != l.panels ensures Get(r, f) == Get(m, f) {
      PanelsApart(l.fields, l.panels, f);
      PutFrame(m, l.panels, List(panels'), f);
    }
  }

  /** Encoding an object whose panels encode to `panels'`. */
  lemma EncodeWithPanels(m: Fields, panels: seq<Json>, panels': seq<Json>, changed: bool, l: Layout)
    returns (m': Fields)
    requires HasPanels(l)
    requires Get(m, l.panels) == Ok(List(panels)) && EncodeList(panels, l) == Some((panels', changed))
    ensures Put(m, l.panels, List(panels')) == Ok(m') && Put(m', l.panels, List(panels)) == Ok(m)
    ensures Get(m', l.panels) == Ok(List(panels'))
    ensures forall f | f in l.fields && f != l.panels :: Get(m', f) == Get(m, f)
    ensures EncodeObject(m, l).Some? && EncodeObject(m, l).value.0 == EncodeFields(m', l.fields).0
  {
    m' := ReplacePanels(m, panels, panels', l);
    assert EncodePanels(m, l) == Some((m', changed));
  }

  lemma {:induction false} EncodeWithoutPanels(m: Fields, l: Layout)
    requires Get(m, l.panels) == Err(KeyNotFound)
    ensures EncodeObject(m, l).Some? && EncodeObject(m, l).value.0 == EncodeFields(m, l.fields).0
  {
    assert EncodePanels(m, l) == Some((m, false));
  }

  /** Decoding an object whose fields decode to `m'` and whose panels decode to `panels'`. */
  lemma DecodeWithPanels(m: Fields, m': Fields, panels: seq<Json>, panels': seq<Json>, l: Layout) returns (y: Fields)
    requires HasPanels(l)
    requires DecodeFields(m, l.fields) == Some(m') && Get(m', l.panels) == Ok(List(panels))
    requires DecodeList(panels, l) == Some(panels')
    ensures Put(m', l.panels, List(panels')) == Ok(y) && Put(y, l.panels, List(panels)) == Ok(m')
    ensures Get(y, l.panels) == Ok(List(panels'))
    ensures forall f | f in l.fields && f != l.panels :: Get(y, f) == Get(m', f)
    ensures DecodeObject(m, l) == Some(y)
  {
    y := ReplacePanels(m', panels, panels', l);
    DecodedPanelsAreInside(m, l);
    assert DecodePanels(m', Object(m), l) == Some(y);
  }

  // ----- Encoding, then decoding

  lemma {:induction false} EncodeThenDecode(m: Fields, l: Layout)
    requires HasPanels(l)
    requires Decoded(m, l)
    ensures EncodeObject(m, l).Some? && DecodeObject(EncodeObject(m, l).value.0, l) == Some(m)
    decreases Object(m), 2
  {
    if Get(m, l.panels).Ok? {
      var panels := Get(m, l.panels).value.items;
      EncodeThenDecodePanels(panels, l);
      var (panels', changed) := EncodeList(panels, l).value;
      var m' := EncodeWithPanels(m, panels, panels', changed, l);
      forall f | f in l.fields ensures DecodedField(Get(m', f)) {
        assert f != l.panels ==> Get(m', f) == Get(m, f);
      }
      DecodeEncodedFields(m', l.fields);
      var y := DecodeWithPanels(EncodeObject(m, l).value.0, m', panels', panels, l);
      assert y == m;
    } else {
      EncodeWithoutPanels(m, l);
      DecodeEncodedFields(m, l.fields);
      assert DecodeObject(EncodeObject(m, l).value.0, l) == Some(m);
    }
  }

  lemma {:induction false} EncodeThenDecodePanels(panels: seq<Json>, l: Layout)
    requires HasPanels(l)
    requires DecodedPanels(panels, l)
    ensures EncodeList(panels, l).Some? && DecodeList(EncodeList(panels, l).value.0, l) == Some(panels)
    ensures Decodable(List(EncodeList(panels, l).value.0))
    decreases panels, 0
  {
    if panels != [] {
      EncodeThenDecodePanel(panels[0], l);
      EncodeThenDecodePanels(panels[1..], l);
      var r := EncodeList(panels, l).value.0;
      assert r[1..] == EncodeList(panels[1..], l).value.0;
      assert [panels[0]] + panels[1..] == panels;
      assert Decodable(List(r[1..]));
      assert forall i :: 1 <= i < |r| ==> r[i] == r[1..][i - 1];
    }
  }

  lemma {:induction false} EncodeThenDecodePanel(p: Json, l: Layout)
    requires HasPanels(l)
    requires DecodedPanel(p, l)
    ensures EncodePanel(p, l).Some? && EncodePanel(p, l).value.0.Object?
    ensures DecodePanel(EncodePanel(p, l).value.0, l) == Some(p)
    decreases p, 3
  {
    if l.config in p.fields {
      var config := p.fields[l.config].fields;
      EncodeThenDecode(config, l);
      var config' := EncodeObject(config, l).value.0;
      assert p.fields[l.config := Object(config')][l.config := Object(config)] == p.fields;
    }
  }

  // ----- Decoding, then encoding

  lemma {:induction false} DecodeFieldsSucceeds(m: Fields, fs: seq<string>)
    requires AllApart(fs) && forall f | f in fs :: EncodedField(Get(m, f))
    ensures DecodeFields(m, fs).Some?
    decreases |fs|
  {
    if fs != [] {
      var f := fs[0];
      if Get(m, f).Ok? {
        var v := Get(m, f).value.value;
        PutFails(m, f, v);
        forall g | g in fs[1..] ensures Get(Put(m, f, v).value, g) == Get(m, g) {
          ApartFromMember(f, fs[1..], g);
          PutFrame(m, f, v, g);
        }
        DecodeFieldsSucceeds(Put(m, f, v).value, fs[1..]);
      } else {
        DecodeFieldsSucceeds(m, fs[1..]);
      }
    }
  }

  lemma {:induction false} DecodeThenEncode(m: Fields, l: Layout)
    requires HasPanels(l)
    requires Encoded(m, l)
    ensures DecodeObject(m, l).Some? && EncodeObject(DecodeObject(m, l).value, l).Some?
    ensures EncodeObject(DecodeObject(m, l).value, l).value.0 == m
    decreases Object(m), 2
  {
    DecodeFieldsSucceeds(m, l.fields);
    DecodeFieldsAt(m, l.fields, l.panels);
    EncodeDecodedFields(m, l.fields);
    var m' := DecodeFields(m, l.fields).value;
    if Get(m, l.panels).Ok? {
      var panels := Get(m, l.panels).value.value.items;
      DecodeThenEncodePanels(panels, l);
      var panels' := DecodeList(panels, l).value;
      var y := DecodeWithPanels(m, m', panels, panels', l);
      var y' := EncodeWithPanels(y, panels', panels, EncodeList(panels', l).value.1, l);
    } else {
      EncodeWithoutPanels(m', l);
      assert DecodeObject(m, l) == Some(m');
    }
  }

  lemma {:induction false} DecodeThenEncodePanels(panels: seq<Json>, l: Layout)
    requires HasPanels(l)
    requires EncodedPanels(panels, l)
    ensures DecodeList(panels, l).Some? && EncodeList(DecodeList(panels, l).value, l).Some?
    ensures EncodeList(DecodeList(panels, l).value, l).value.0 == panels
    decreases panels, 0
  {
    if panels != [] {
      DecodeThenEncodePanel(panels[0], l);
      DecodeThenEncodePanels(panels[1..], l);
      assert DecodeList(panels, l).value[1..] == DecodeList(panels[1..], l).value;
      assert [panels[0]] + panels[1..] == panels;
    }
  }

  lemma {:induction false} DecodeThenEncodePanel(p: Json, l: Layout)
    requires HasPanels(l)
    requires EncodedPanel(p, l)
    ensures DecodePanel(p, l).Some? && EncodePanel(DecodePanel(p, l).value, l).Some?
    ensures EncodePanel(DecodePanel(p, l).value, l).value.0 == p
    decreases p, 3
  {
    if l.config in p.fields {
      var config := p.fields[l.config].fields;
      DecodeThenEncode(config, l);
      var config' := DecodeObject(config, l).value;
      assert p.fields[l.config := Object(config')][l.config := Object(config)] == p.fields;
    }
  }

  // ----- Only decoded and encoded objects survive the round trips

  predicate ListAtPanels(m: Fields, l: Layout) {
    Get(m, l.panels).Ok? && Get(m, l.panels).value.List?
  }

  /** The two steps of a successful encoding. */
  lemma EncodeSteps(m: Fields, l: Layout) returns (m': Fields)
    requires EncodeObject(m, l).Some?
    ensures EncodePanels(m, l).Some? && EncodePanels(m, l).value.0 == m'
    ensures EncodeObject(m, l).value ==
      (EncodeFields(m', l.fields).0, EncodePanels(m, l).value.1 || EncodeFields(m', l.fields).1)
    ensures !ListAtPanels(m, l) ==> EncodePanels(m, l) == Some((m, false))
  {
    m' := EncodePanels(m, l).value.0;
  }

  /** What a successful encoding leaves at a field other than the panels. */
  lemma {:induction false} EncodedFieldOutcome(m: Fields, l: Layout, f: string)
    requires HasPanels(l) && EncodeObject(m, l).Some? && f in l.fields
    ensures f != l.panels ==> Get(EncodeObject(m, l).value.0, f) == EncodedValue(Get(m, f))
  {
    var m' := EncodeSteps(m, l);
    EncodeFieldsAt(m', l.fields, f);
    if ListAtPanels(m, l) {
      var panels := Get(m, l.panels).value.items;
      var (panels', changed) := EncodeList(panels, l).value;
      var m'' := EncodeWithPanels(m, panels, panels', changed, l);
    }
  }

  /** What a successful encoding finds and leaves at the panels. */
  lemma {:induction false} EncodeOutcome(m: Fields, l: Layout)
    requires HasPanels(l) && EncodeObject(m, l).Some?
    ensures var before, after := Get(m, l.panels), Get(EncodeObject(m, l).value.0, l.panels);
            if ListAtPanels(m, l) then
              EncodeList(before.value.items, l).Some?
              && after == Ok(Printed(List(EncodeList(before.value.items, l).value.0)))
            else after == before && (before == Err(KeyNotFound) || (before.Ok? && IsString(before.value)))
  {
    var m' := EncodeSteps(m, l);
    EncodeFieldsAt(m', l.fields, l.panels);
    if ListAtPanels(m, l) {
      var panels := Get(m, l.panels).value.items;
      var (panels', changed) := EncodeList(panels, l).value;
      var m'' := EncodeWithPanels(m, panels, panels', changed, l);
    }
  }

  /** What a successful decoding finds and leaves at the fields. */
  lemma {:induction false} DecodeOutcome(m: Fields, l: Layout)
    requires HasPanels(l) && DecodeObject(m, l).Some?
    ensures forall f | f in l.fields :: EncodedField(Get(m, f))
    ensures var y := DecodeObject(m, l).value;
            && (forall f | f in l.fields && f != l.panels :: Get(y, f) == DecodedValue(Get(m, f)))
            && (Get(m, l.panels) == Err(KeyNotFound) ==> Get(y, l.panels) == Err(KeyNotFound))
            && (Get(m, l.panels).Ok? ==>
                  && Get(m, l.panels).value.Text? && Get(m, l.panels).value.value.List?
                  && DecodeList(Get(m, l.panels).value.value.items, l).Some?
                  && Get(y, l.panels) == Ok(List(DecodeList(Get(m, l.panels).value.value.items, l).value)))
  {
    var m' := DecodeFields(m, l.fields).value;
    forall f | f in l.fields ensures EncodedField(Get(m, f)) && Get(m', f) == DecodedValue(Get(m, f)) {
      DecodeFieldsAt(m, l.fields, f);
    }
    DecodedPanelsAreInside(m, l);
    assert DecodePanels(m', Object(m), l).Some?;
    if Get(m, l.panels).Ok? {
      var panels := Get(m', l.panels).value.items;
      var y := DecodeWithPanels(m, m', panels, DecodeList(panels, l).value, l);
    }
  }

  lemma {:induction false} ReencodedIsDecoded(m: Fields, l: Layout)
    requires HasPanels(l) && EncodeObject(m, l).Some?
    requires DecodeObject(EncodeObject(m, l).value.0, l) == Some(m)
    ensures Decoded(m, l)
    decreases Object(m), 2
  {
    var x := EncodeObject(m, l).value.0;
    EncodeOutcome(m, l);
    DecodeOutcome(x, l);
    if Get(m, l.panels).Ok? {
      ReencodedPanelsAreDecoded(Get(m, l.panels).value.items, l);
    }
    forall f | f in l.fields ensures DecodedField(Get(m, f)) {
      assert EncodedField(Get(x, f));
    }
  }

  lemma {:induction false} ReencodedPanelsAreDecoded(panels: seq<Json>, l: Layout)
    requires HasPanels(l) && EncodeList(panels, l).Some?
    requires DecodeList(EncodeList(panels, l).value.0, l) == Some(panels)
    ensures DecodedPanels(panels, l) && Decodable(List(panels))
    decreases panels, 0
  {
    if panels != [] {
      var p := EncodePanel(panels[0], l).value.0;
      var rest := EncodeList(panels[1..], l).value.0;
      assert EncodeList(panels, l).value.0[0] == p && EncodeList(panels, l).value.0[1..] == rest;
      var q, d := DecodePanel(p, l).value, DecodeList(rest, l).value;
      assert ([q] + d)[0] == panels[0] && ([q] + d)[1..] == panels[1..] && d == ([q] + d)[1..];
      ReencodedPanelIsDecoded(panels[0], l);
      ReencodedPanelsAreDecoded(panels[1..], l);
      assert Decodable(List(panels[1..]));
      assert forall i :: 1 <= i < |panels| ==> panels[i] == panels[1..][i - 1];
    }
  }

  lemma {:induction false} ReencodedPanelIsDecoded(p: Json, l: Layout)
    requires HasPanels(l) && EncodePanel(p, l).Some? && DecodePanel(EncodePanel(p, l).value.0, l) == Some(p)
    ensures DecodedPanel(p, l)
    decreases p, 3
  {
    if l.config in p.fields {
      ReencodedIsDecoded(p.fields[l.config].fields, l);
    }
  }

  lemma {:induction false} RedecodedIsEncoded(m: Fields, l: Layout)
    requires HasPanels(l) && DecodeObject(m, l).Some? && EncodeObject(DecodeObject(m, l).value, l).Some?
    requires EncodeObject(DecodeObject(m, l).value, l).value.0 == m
    ensures Encoded(m, l)
    decreases Object(m), 2
  {
    DecodeOutcome(m, l);
    var y := DecodeObject(m, l).value;
    EncodeOutcome(y, l);
    forall f | f in l.fields ensures PrintedField(Get(m, f)) {
      EncodedFieldOutcome(y, l, f);
    }
    if Get(m, l.panels).Ok? {
      RedecodedPanelsAreEncoded(Get(m, l.panels).value.value.items, l);
    }
  }

  lemma {:induction false} RedecodedPanelsAreEncoded(panels: seq<Json>, l: Layout)
    requires HasPanels(l) && DecodeList(panels, l).Some? && EncodeList(DecodeList(panels, l).value, l).Some?
    requires EncodeList(DecodeList(panels, l).value, l).value.0 == panels
    ensures EncodedPanels(panels, l)
    decreases panels, 0
  {
    if panels != [] {
      var p, rest := DecodePanel(panels[0], l).value, DecodeList(panels[1..], l).value;
      assert DecodeList(panels, l).value[0] == p && DecodeList(panels, l).value[1..] == rest;
      var q, e := EncodePanel(p, l).value.0, EncodeList(rest, l).value.0;
      assert ([q] + e)[0] == panels[0] && e == ([q] + e)[1..] == panels[1..];
      RedecodedPanelIsEncoded(panels[0], l);
      RedecodedPanelsAreEncoded(panels[1..], l);
    }
  }

  lemma {:induction false} RedecodedPanelIsEncoded(p: Json, l: Layout)
    requires HasPanels(l) && DecodePanel(p, l).Some? && EncodePanel(DecodePanel(p, l).value, l).Some?
    requires EncodePanel(DecodePanel(p, l).value, l).value.0 == p
    ensures EncodedPanel(p, l)
    decreases p, 3
  {
    if p.Object? && l.config in p.fields {
      RedecodedIsEncoded(p.fields[l.config].fields, l);
    }
  }

  // ----- Encoding again

  lemma {:induction false} EncodeFieldsChanged(m: Fields, fs: seq<string>)
    requires AllApart(fs)
    ensures EncodeFields(m, fs).1 <==> exists f :: f in fs && ToEncode(m, f)
    ensures !EncodeFields(m, fs).1 ==> EncodeFields(m, fs).0 == m
    decreases |fs|
  {
    if fs != [] && !ToEncode(m, fs[0]) {
      EncodeFieldsChanged(m, fs[1..]);
    }
  }

  /** An object that encoding leaves alone: its fields are strings or cannot be found. */
  predicate NothingToEncode(m: Fields, l: Layout) {
    Get(m, l.panels) != Err(NotAMap) && forall f | f in l.fields :: !ToEncode(m, f)
  }

  /** Encoding reports no change exactly when there is nothing to encode, and then returns what it was given. */
  lemma {:induction false} EncodeUnchanged(m: Fields, l: Layout)
    requires HasPanels(l)
    ensures EncodeObject(m, l).Some? && !EncodeObject(m, l).value.1 <==> NothingToEncode(m, l)
    ensures NothingToEncode(m, l) ==> EncodeObject(m, l) == Some((m, false))
  {
    if NothingToEncode(m, l) {
      assert !ToEncode(m, l.panels);
      assert EncodePanels(m, l) == Some((m, false));
      EncodeFieldsChanged(m, l.fields);
    }
    if EncodeObject(m, l).Some? {
      var m' := EncodeSteps(m, l);
      EncodeFieldsChanged(m', l.fields);
      if ListAtPanels(m, l) {
        var panels := Get(m, l.panels).value.items;
        var (panels', changed) := EncodeList(panels, l).value;
        var m'' := EncodeWithPanels(m, panels, panels', changed, l);
        assert ToEncode(m', l.panels) && ToEncode(m, l.panels);
      }
    }
  }

  /** Encoding what has been encoded changes nothing. */
  lemma {:induction false} EncodeTwice(m: Fields, l: Layout)
    requires HasPanels(l) && EncodeObject(m, l).Some?
    ensures EncodeObject(EncodeObject(m, l).value.0, l) == Some((EncodeObject(m, l).value.0, false))
  {
    var x := EncodeObject(m, l).value.0;
    var m' := EncodeSteps(m, l);
    forall f | f in l.fields ensures !ToEncode(x, f) {
      EncodeFieldsAt(m', l.fields, f);
    }
    EncodeOutcome(m, l);
    EncodeUnchanged(x, l);
  }

  // ----- When encoding and decoding fail

  /** The panels, unless they are missing or text, are a list of objects, and what these embed can be encoded. */
  ghost predicate CanEncode(m: Fields, l: Layout)
    decreases Object(m)
  {
    match Get(m, l.panels)
    case Err(e) => e == KeyNotFound
    case Ok(v) => v.String? || v.Text? || (v.List? && forall p | p in v.items :: CanEncodePanel(p, l))
  }

  ghost predicate CanEncodePanel(p: Json, l: Layout)
    decreases p
  {
    p.Object? && (l.config in p.fields ==>
      p.fields[l.config].Object? && CanEncode(p.fields[l.config].fields, l))
  }

  /** Every field is missing or text of a map or of maps, the panels of a list, and what these embed can be decoded. */
  ghost predicate CanDecode(m: Fields, l: Layout)
    decreases Object(m)
  {
    && (forall f | f in l.fields :: EncodedField(Get(m, f)))
    && (Get(m, l.panels).Ok? ==>
          && Get(m, l.panels).value.Text? && Get(m, l.panels).value.value.List?
          && forall p | p in Get(m, l.panels).value.value.items :: CanDecodePanel(p, l))
  }

  ghost predicate CanDecodePanel(p: Json, l: Layout)
    decreases p
  {
    p.Null? || (p.Object? && (l.config in p.fields ==>
      p.fields[l.config].Object? && CanDecode(p.fields[l.config].fields, l)))
  }

  lemma {:induction false} EncodesExactly(m: Fields, l: Layout)
    ensures EncodeObject(m, l).Some? <==> CanEncode(m, l)
    decreases Object(m), 0
  {
    var r := Get(m, l.panels);
    if r.Ok? && r.value.List? {
      EncodesListExactly(r.value.items, l);
    }
    assert EncodeObject(m, l).Some? <==> EncodePanels(m, l).Some?;
  }

  lemma {:induction false} EncodesListExactly(panels: seq<Json>, l: Layout)
    ensures EncodeList(panels, l).Some? <==> forall p | p in panels :: CanEncodePanel(p, l)
    decreases panels, 1
  {
    if panels != [] {
      var p := panels[0];
      if p.Object? && l.config in p.fields && p.fields[l.config].Object? {
        EncodesExactly(p.fields[l.config].fields, l);
      }
      EncodesListExactly(panels[1..], l);
      MembersOf(panels);
      assert EncodePanel(p, l).Some? <==> CanEncodePanel(p, l);
      if EncodeList(panels, l).Some? {
        forall q | q in panels ensures CanEncodePanel(q, l) {
          assert q == p || q in panels[1..];
        }
      } else if EncodePanel(p, l).None? {
        assert p in panels && !CanEncodePanel(p, l);
      } else {
        var q :| q in panels[1..] && !CanEncodePanel(q, l);
        assert q in panels;
      }
    }
  }

  lemma {:induction false} DecodesExactly(m: Fields, l: Layout)
    requires HasPanels(l)
    ensures DecodeObject(m, l).Some? <==> CanDecode(m, l)
    decreases Object(m), 0
  {
    if DecodeObject(m, l).Some? {
      DecodeOutcome(m, l);
    }
    if (forall f | f in l.fields :: EncodedField(Get(m, f))) {
      DecodeFieldsSucceeds(m, l.fields);
      DecodeFieldsAt(m, l.fields, l.panels);
      DecodedPanelsAreInside(m, l);
      assert DecodeObject(m, l) == DecodePanels(DecodeFields(m, l.fields).value, Object(m), l);
    }
    var r := Get(m, l.panels);
    if r.Ok? && r.value.Text? && r.value.value.List? {
      DecodesListExactly(r.value.value.items, l);
    }
  }

  lemma {:induction false} DecodesListExactly(panels: seq<Json>, l: Layout)
    requires HasPanels(l)
    ensures DecodeList(panels, l).Some? <==> forall p | p in panels :: CanDecodePanel(p, l)
    decreases panels, 1
  {
    if panels != [] {
      var p := panels[0];
      if p.Object? && l.config in p.fields && p.fields[l.config].Object? {
        DecodesExactly(p.fields[l.config].fields, l);
      }
      DecodesListExactly(panels[1..], l);
      MembersOf(panels);
      assert DecodePanel(p, l).Some? <==> CanDecodePanel(p, l);
      if DecodeList(panels, l).Some? {
        forall q | q in panels ensures CanDecodePanel(q, l) {
          assert q == p || q in panels[1..];
        }
      } else if DecodePanel(p, l).None? {
        assert p in panels && !CanDecodePanel(p, l);
      } else {
        var q :| q in panels[1..] && !CanDecodePanel(q, l);
        assert q in panels;
      }
    }
  }

  // ----- The fields that Kibana keeps encoded

  /** decode(encode(m)) == m exactly for decoded saved objects. */
  lemma {:induction false} DecodeEncodeExactly(m: Fields)
    ensures HasPanels(KIBANA)
    ensures EncodeObject(m, KIBANA).Some? && DecodeObject(EncodeObject(m, KIBANA).value.0, KIBANA) == Some(m)
      <==> Decoded(m, KIBANA)
  {
    FieldsAreApart();
    DecodeEncodeIff(m, KIBANA);
  }

  lemma {:induction false} DecodeEncodeIff(m: Fields, l: Layout)
    requires HasPanels(l)
    ensures EncodeObject(m, l).Some? && DecodeObject(EncodeObject(m, l).value.0, l) == Some(m) <==> Decoded(m, l)
  {
    if Decoded(m, l) {
      EncodeThenDecode(m, l);
    } else if EncodeObject(m, l).Some? && DecodeObject(EncodeObject(m, l).value.0, l) == Some(m) {
      ReencodedIsDecoded(m, l);
    }
  }

  /** encode(decode(m)) == m exactly for encoded saved objects. */
  lemma {:induction false} EncodeDecodeExactly(m: Fields)
    ensures HasPanels(KIBANA)
    ensures DecodeObject(m, KIBANA).Some? && EncodeObject(DecodeObject(m, KIBANA).value, KIBANA).Some?
        && EncodeObject(DecodeObject(m, KIBANA).value, KIBANA).value.0 == m
      <==> Encoded(m, KIBANA)
  {
    FieldsAreApart();
    EncodeDecodeIff(m, KIBANA);
  }

  lemma {:induction false} EncodeDecodeIff(m: Fields, l: Layout)
    requires HasPanels(l)
    ensures DecodeObject(m, l).Some? && EncodeObject(DecodeObject(m, l).value, l).Some?
        && EncodeObject(DecodeObject(m, l).value, l).value.0 == m
      <==> Encoded(m, l)
  {
    if Encoded(m, l) {
      DecodeThenEncode(m, l);
    } else if DecodeObject(m, l).Some? && EncodeObject(DecodeObject(m, l).value, l).Some?
              && EncodeObject(DecodeObject(m, l).value, l).value.0 == m {
      RedecodedIsEncoded(m, l);
    }
  }

  /** Each field that Kibana keeps as text holds what its text stands for once it is decoded, and text once it is
      encoded; the panels are decoded further. */
  lemma {:induction false} KibanaFieldsChange(m: Fields, f: string)
    requires || f == "attributes.controlGroupInput.ignoreParentSettingsJSON"
             || f == "attributes.controlGroupInput.panelsJSON"
             || f == "attributes.kibanaSavedObjectMeta.searchSourceJSON"
             || f == "attributes.layerListJSON" || f == "attributes.mapStateJSON" || f == "attributes.optionsJSON"
             || f == "attributes.uiStateJSON" || f == "attributes.visState"
    ensures HasPanels(KIBANA)
    ensures DecodeObject(m, KIBANA).Some? ==>
              var was, y := Get(m, f), Get(DecodeObject(m, KIBANA).value, f);
              was == y == Err(KeyNotFound) || (was.Ok? && was.value.Text? && y == Ok(was.value.value))
    ensures EncodeObject(m, KIBANA).Some? ==>
              var was, x := Get(m, f), Get(EncodeObject(m, KIBANA).value.0, f);
              x == if was.Ok? && !was.value.String? && !was.value.Text? then Ok(Text(was.value, 0)) else was
  {
    FieldsAreApart();
    KibanaFields(f);
    FieldChanges(m, KIBANA, f);
  }

  lemma {:induction false} FieldChanges(m: Fields, l: Layout, f: string)
    requires HasPanels(l) && f in l.fields && f != l.panels
    ensures DecodeObject(m, l).Some? ==>
              var was, y := Get(m, f), Get(DecodeObject(m, l).value, f);
              was == y == Err(KeyNotFound) || (was.Ok? && was.value.Text? && y == Ok(was.value.value))
    ensures EncodeObject(m, l).Some? ==>
              var was, x := Get(m, f), Get(EncodeObject(m, l).value.0, f);
              x == if was.Ok? && !was.value.String? && !was.value.Text? then Ok(Text(was.value, 0)) else was
  {
    if DecodeObject(m, l).Some? {
      DecodeOutcome(m, l);
      assert EncodedField(Get(m, f));
    }
    if EncodeObject(m, l).Some? {
      EncodedFieldOutcome(m, l, f);
    }
  }
}
