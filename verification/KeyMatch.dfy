/** Matching a searched key against the key of a field definition. */
module KeyMatch {
  import opened DottedKeys
  import opened Options

  datatype FieldDefinition = FieldDefinition(
    name: string, typ: string, objectType: string, external: string, metricType: string,
    fields: seq<FieldDefinition>, multiFields: seq<FieldDefinition>)

  /** A pattern segment is matched literally, or up to a final `*` that takes in at least one character. */
  predicate SegmentMatches(p: string, s: string) {
    || p == s
    || (p != "" && p[|p| - 1] == '*' && |p| <= |s| && p[..|p| - 1] == s[..|p| - 1] && s[|p| - 1] != '*')
  }

  predicate PathMatches(ps: seq<string>, ss: seq<string>) {
    |ps| == |ss| && forall i :: 0 <= i < |ps| ==> SegmentMatches(ps[i], ss[i])
  }

  /** The sub-fields that complex types have without declaring them. */
  function AllowedSubFields(def: FieldDefinition): (allowed: seq<string>)
  {
    var fieldType := if def.typ == "object" && def.objectType != "" then def.objectType else def.typ;
    if fieldType == "geo_point" then [".lat", ".lon"]
    else if fieldType == "histogram" then [".values", ".counts"]
    else if def.external != "" then [".lat", ".lon", ".values", ".counts"]
    else []
  }

  /** A field of this type, or an object that gives its fields this type. */
  predicate OfType(def: FieldDefinition, typ: string) {
    if def.typ == "object" && def.objectType != "" then def.objectType == typ else def.typ == typ
  }

  /** The field has the sub-field `a` without declaring it; an external field that is not resolved could be anything. */
  predicate HasSubField(def: FieldDefinition, a: string) {
    || (OfType(def, "geo_point") && (a == ".lat" || a == ".lon"))
    || (OfType(def, "histogram") && (a == ".values" || a == ".counts"))
    || (!OfType(def, "geo_point") && !OfType(def, "histogram") && def.external != ""
        && (a == ".lat" || a == ".lon" || a == ".values" || a == ".counts"))
  }

  /** What is meant by a key matching: its segments do, or they do without one such sub-field. */
  predicate KeysMatch(key: string, def: FieldDefinition, searched: string) {
    || PathMatches(Segments(key), Segments(searched))
    || exists n :: 0 <= n < |searched| && HasSubField(def, searched[n..]) && MatchesUpTo(key, searched, n)
  }

  /** The key matches the first `n` characters of the searched key. */
  predicate MatchesUpTo(key: string, searched: string, n: nat)
    requires n <= |searched|
  {
    PathMatches(Segments(key), Segments(searched[..n]))
  }

  /** What the byte loop leaves of `s` once it has gone through all of `key`, or None when it gives up. */
  function Scan(key: string, s: string): Option<string>
    decreases |key|
  {
    if key == "" then Some(s)
    else if s == "" then None
    else if key[0] == s[0] then Scan(key[1..], s[1..])
    else if key[0] == '*' && s[0] != '.' then Scan(key[1..], s[FirstDot(s)..])
    else None
  }

  /** compareKeys */
  method CompareKeys(key: string, def: FieldDefinition, searched: string) returns (found: bool)
    ensures found <==> KeysMatch(key, def, searched)
  {
    ScanDecides(key, def, searched);
    var j := 0;
    for i := 0 to |key|
      invariant j <= |searched|
      invariant Scan(key, searched) == Scan(key[i..], searched[j..])
    {
      if j >= |searched| {
        // Scan is None here: the key goes on after the searched key.
        return false;
      }
      assert key[i..][1..] == key[i + 1..] && searched[j..][1..] == searched[j + 1..];
      if key[i] == searched[j] {
        j := j + 1;
      } else if key[i] == '*' {
        // The star takes in the rest of the segment, as Scan does.
        var idx := FirstDot(searched[j..]);
        if idx == 0 {
          // A star that would take in nothing: Scan is None.
          return false;
        }
        assert searched[j..][idx..] == searched[j + idx..];
        j := j + idx;
      } else {
        return false;
      }
    }
    assert key[|key|..] == "";
    if j == |searched| {
      return true;
    }
    var extra := searched[j..];
    found := extra in AllowedSubFields(def);
  }

  // ----- The scan is a match by segments

  /** The scan consumes a prefix of what it is given. */
  lemma {:induction false} ScanLeavesSuffix(key: string, s: string)
    requires Scan(key, s).Some?
    ensures var rest := Scan(key, s).value; |rest| <= |s| && s == s[..|s| - |rest|] + rest
    ensures key != "" ==> |Scan(key, s).value| < |s|
    decreases |key|
  {
    if key != "" {
      if key[0] == s[0] {
        ScanLeavesSuffix(key[1..], s[1..]);
      } else {
        ScanLeavesSuffix(key[1..], s[FirstDot(s)..]);
      }
    }
  }

  /** A rest that starts with a dot does not change how what comes before it is scanned. */
  lemma {:induction false} ScanUpTo(key: string, k: string, a: string)
    requires a == "" || a[0] == '.'
    ensures Scan(key, k + a) == Some(a) <==> Scan(key, k) == Some("")
    decreases |key|
  {
    if key == "" {
      assert k == "" ==> k + a == a;
    } else if k == "" {
      assert k + a == a;
      if Scan(key, a).Some? {
        ScanLeavesSuffix(key, a);
      }
    } else {
      assert (k + a)[1..] == k[1..] + a;
      ScanUpTo(key[1..], k[1..], a);
      FirstDotConcat(k, a);
      assert (k + a)[FirstDot(k)..] == k[FirstDot(k)..] + a;
      ScanUpTo(key[1..], k[FirstDot(k)..], a);
    }
  }

  lemma {:induction false} FirstDotConcat(k: string, a: string)
    requires a == "" || a[0] == '.'
    ensures FirstDot(k + a) == FirstDot(k)
    decreases |k|
  {
    if k == "" {
      assert k + a == a;
    } else {
      assert (k + a)[1..] == k[1..] + a;
      FirstDotConcat(k[1..], a);
    }
  }

  /** Text without a dot against text without a dot, whatever follows from the next dot on. */
  lemma {:induction false} ScanSegment(b: string, c: string, t: string, x: string)
    requires !HasDot(b) && !HasDot(c)
    requires (t == "" || t[0] == '.') && (x == "" || x[0] == '.')
    ensures SegmentMatches(b, c) ==> Scan(b + t, c + x) == Scan(t, x)
    ensures !SegmentMatches(b, c) && t != "" ==> Scan(b + t, c + x) == None
    ensures !SegmentMatches(b, c) && t == "" && Scan(b + t, c + x).Some? ==> |Scan(b + t, c + x).value| > |x|
    decreases |b|
  {
    if b == "" {
      assert b + t == t;
      if c == "" {
        assert c + x == x;
      } else {
        assert (c + x)[0] == c[0] && c[0] != '.';
      }
    } else {
      assert b[0] != '.' && (b + t)[1..] == b[1..] + t;
      if c == "" {
        assert c + x == x;
      } else {
        assert c[0] != '.' && (c + x)[1..] == c[1..] + x;
        if b[0] == c[0] {
          assert !HasDot(b[1..]) && !HasDot(c[1..]);
          ScanSegment(b[1..], c[1..], t, x);
          SegmentTail(b, c);
        } else if b[0] == '*' {
          FirstDotConcat(c, x);
          assert (c + x)[FirstDot(c)..] == x;
          StarSegment(b, c, t, x);
        }
      }
    }
  }

  lemma SegmentTail(b: string, c: string)
    requires b != "" && c != "" && b[0] == c[0]
    ensures SegmentMatches(b, c) <==> SegmentMatches(b[1..], c[1..])
  {
    assert b == [b[0]] + b[1..] && c == [c[0]] + c[1..];
    if |b| > 1 && |b| <= |c| {
      var n := |b| - 1;
      assert b[..n] == [b[0]] + b[1..][..n - 1] && c[..n] == [c[0]] + c[1..][..n - 1];
    }
  }

  /** A star that does not stand for itself takes in the whole segment, so it must be the last character. */
  lemma {:induction false} StarSegment(b: string, c: string, t: string, x: string)
    requires !HasDot(b) && b != "" && b[0] == '*' && c != "" && c[0] != '*'
    requires (t == "" || t[0] == '.') && (x == "" || x[0] == '.')
    ensures SegmentMatches(b, c) <==> b == "*"
    ensures b == "*" ==> b[1..] + t == t
    ensures b != "*" ==> Scan(b[1..] + t, x) == None
  {
    if |b| > 1 {
      assert b[..|b| - 1][0] == '*';
      assert b[1] != '.' && (b[1..] + t)[0] == b[1];
    }
  }

  lemma {:induction false} ScanSegments(key: string, k: string)
    ensures Scan(key, k) == Some("") <==> PathMatches(Segments(key), Segments(k))
    decreases |key|
  {
    var b, c := Base(key), Base(k);
    var t := if HasDot(key) then "." + Rest(key) else "";
    var x := if HasDot(k) then "." + Rest(k) else "";
    assert key == b + t && k == c + x;
    ScanSegment(b, c, t, x);
    if HasDot(key) && HasDot(k) {
      assert t[1..] == Rest(key) && x[1..] == Rest(k);
      ScanSegments(Rest(key), Rest(k));
      PathCons(b, c, Segments(Rest(key)), Segments(Rest(k)));
    } else {
      assert Segments(key)[0] == b && Segments(k)[0] == c;
      assert PathMatches(Segments(key), Segments(k)) ==> |Segments(key)| == |Segments(k)|;
    }
  }

  lemma PathCons(p: string, s: string, ps: seq<string>, ss: seq<string>)
    ensures PathMatches([p] + ps, [s] + ss) <==> SegmentMatches(p, s) && PathMatches(ps, ss)
  {
    if PathMatches([p] + ps, [s] + ss) {
      assert SegmentMatches(([p] + ps)[0], ([s] + ss)[0]);
      forall i | 0 <= i < |ps| ensures SegmentMatches(ps[i], ss[i]) {
        assert SegmentMatches(([p] + ps)[i + 1], ([s] + ss)[i + 1]);
      }
    }
  }

  lemma {:induction false} ScanUpToEnding(key: string, searched: string, n: nat)
    requires n < |searched| && searched[n] == '.'
    ensures MatchesUpTo(key, searched, n) <==> Scan(key, searched) == Some(searched[n..])
  {
    assert searched == searched[..n] + searched[n..];
    ScanUpTo(key, searched[..n], searched[n..]);
    ScanSegments(key, searched[..n]);
  }

  /** The outcome of the scan decides the match. */
  lemma {:induction false} ScanDecides(key: string, def: FieldDefinition, searched: string)
    ensures KeysMatch(key, def, searched) <==>
      Scan(key, searched).Some? &&
      (Scan(key, searched).value == "" || Scan(key, searched).value in AllowedSubFields(def))
  {
    ScanSegments(key, searched);
    forall n | 0 <= n < |searched| && HasSubField(def, searched[n..])
      ensures MatchesUpTo(key, searched, n) <==> Scan(key, searched) == Some(searched[n..])
    {
      SubFieldAllowed(def, searched[n..]);
      ScanUpToEnding(key, searched, n);
    }
    if Scan(key, searched).Some? {
      ScanLeavesSuffix(key, searched);
      var rest := Scan(key, searched).value;
      SubFieldAllowed(def, rest);
      assert rest == searched[|searched| - |rest|..];
    }
    forall n | 0 <= n < |searched| ensures searched[n..] in AllowedSubFields(def) <==> HasSubField(def, searched[n..]) {
      SubFieldAllowed(def, searched[n..]);
    }
  }

  lemma SubFieldAllowed(def: FieldDefinition, a: string)
    ensures a in AllowedSubFields(def) <==> HasSubField(def, a)
    ensures HasSubField(def, a) ==> a != "" && a[0] == '.'
  {
  }

  /** A key does not match what it is followed by a dot in, except for a sub-field. */
  lemma MatchesSubField(key: string, def: FieldDefinition, a: string)
    requires a != "" && a[0] == '.'
    ensures KeysMatch(key, def, key + a) <==> HasSubField(def, a)
  {
    ScanItself(key);
    ScanUpTo(key, key, a);
    ScanDecides(key, def, key + a);
    SubFieldAllowed(def, a);
  }

  lemma {:induction false} ScanItself(key: string)
    ensures Scan(key, key) == Some("")
    decreases |key|
  {
    if key != "" {
      ScanItself(key[1..]);
    }
  }
}
