/** Redacting a channel's secrets on the way out and keeping them on the way back in
    (internal/api/channels.go). */
module ChannelSecrets {
  import opened Domain

  /** A decoded JSON value; `Other` stands for numbers, booleans and lists. */
  datatype Value = Null | Text(text: string) | Fields(fields: map<string, Value>) | Other(code: int)

  type Config = map<string, Value>

  predicate Blank(v: Option<Value>) {
    v == None || v == Some(Null) || v == Some(Text(""))
  }

  function Get(c: Config, k: string): Option<Value> {
    if k in c then Some(c[k]) else None
  }

  function RedactField(v: Value): Value {
    if v.Text? && v.text != "" then Text("") else v
  }

  function RedactValue(v: Value): Value {
    match v
    case Text(_) => RedactField(v)
    case Fields(fs) => Fields(map k | k in fs :: RedactField(fs[k]))
    case _ => v
  }

  /** The config with every secret blanked. */
  function Redact(c: Config, secrets: seq<string>): Config {
    map k | k in c :: if k in secrets then RedactValue(c[k]) else c[k]
  }

  /** What a key holds after blank secrets were filled in from the stored config. */
  function Kept(given: Config, stored: Config, secrets: seq<string>, k: string): Option<Value> {
    if k in secrets && Blank(Get(given, k)) && !Blank(Get(stored, k)) then Get(stored, k) else Get(given, k)
  }

  function Merge(given: Config, stored: Config, secrets: seq<string>): Config {
    map k | k in given.Keys + stored.Keys && Kept(given, stored, secrets, k).Some? :: Kept(given, stored, secrets, k).value
  }

  // ---------- the loops ----------

  /** Blank the texts of a nested map, field by field. */
  method RedactFields(fs: map<string, Value>) returns (out: map<string, Value>)
    ensures out == map k | k in fs :: RedactField(fs[k])
  {
    out := map[];
    var todo := fs.Keys;
    while todo != {}
      invariant todo <= fs.Keys && out.Keys == fs.Keys - todo
      invariant forall k :: k in out ==> out[k] == RedactField(fs[k])
      decreases todo
    {
      var k :| k in todo;
      out := out[k := if fs[k].Text? && fs[k].text != "" then Text("") else fs[k]];
      todo := todo - {k};
    }
  }

  /** Copy the config, then overwrite the secrets one by one. */
  method RedactSecretConfig(c: Config, secrets: seq<string>) returns (out: Config)
    ensures out == Redact(c, secrets)
  {
    out := c;
    for i := 0 to |secrets|
      invariant out.Keys == c.Keys
      invariant forall k :: k in c ==> out[k] == if k in secrets[..i] then RedactValue(c[k]) else c[k]
    {
      var key := secrets[i];
      assert secrets[..i + 1] == secrets[..i] + [key];
      if key in out {
        RedactTwice(c[key]);
        match out[key]
        case Text(t) =>
          if t != "" {
            out := out[key := Text("")];
          }
        case Fields(fs) =>
          var blanked := RedactFields(fs);
          out := out[key := Fields(blanked)];
        case _ =>
      }
    }
    assert secrets[..|secrets|] == secrets;
  }

  lemma RedactTwice(v: Value)
    ensures RedactValue(RedactValue(v)) == RedactValue(v)
  {
    if v.Fields? {
      assert RedactValue(RedactValue(v)).fields == RedactValue(v).fields;
    }
  }

  /** Fill blank secrets from the stored config, one key after the other. */
  method MergeKeptSecrets(given: Config, stored: Config, secrets: seq<string>) returns (out: Config)
    ensures out == Merge(given, stored, secrets)
  {
    out := given;
    for i := 0 to |secrets|
      invariant forall k :: Get(out, k) == Kept(given, stored, secrets[..i], k)
    {
      var key := secrets[i];
      assert secrets[..i + 1] == secrets[..i] + [key];
      ghost var before := out;
      assert Get(before, key) == Kept(given, stored, secrets[..i], key);
      var blank := key !in out || out[key] == Null || out[key] == Text("");
      if blank && key in stored && stored[key] != Null && stored[key] != Text("") {
        out := out[key := stored[key]];
      }
      forall k ensures Get(out, k) == Kept(given, stored, secrets[..i + 1], k) {
        assert Get(before, k) == Kept(given, stored, secrets[..i], k);
      }
    }
    assert secrets[..|secrets|] == secrets;
    MergeByKey(out, given, stored, secrets);
  }

  /** A config is determined by what it holds at each key. */
  lemma MergeByKey(out: Config, given: Config, stored: Config, secrets: seq<string>)
    requires forall k :: Get(out, k) == Kept(given, stored, secrets, k)
    ensures out == Merge(given, stored, secrets)
  {
    var m := Merge(given, stored, secrets);
    forall k ensures k in out <==> k in m {
      assert Get(out, k) == Kept(given, stored, secrets, k);
    }
    forall k | k in m ensures out[k] == m[k] {
      assert Get(out, k) == Kept(given, stored, secrets, k);
    }
  }

  /** No value, a null or an empty text. */
  predicate IsNothing(c: Config, k: string) {
    k in c ==> c[k] == Null || c[k] == Text("")
  }

  /** What saving an edit does to each key: whatever is not a secret is as given; a secret given
      anew is as given, so it can be changed; a secret left out, null or empty keeps the stored
      value if there is one. No other key appears. */
  lemma MergeMeans(given: Config, stored: Config, secrets: seq<string>, k: string)
    ensures var m := Merge(given, stored, secrets);
      && (k !in secrets || !IsNothing(given, k) || IsNothing(stored, k) ==> Get(m, k) == Get(given, k))
      && (k in secrets && IsNothing(given, k) && !IsNothing(stored, k) ==> k in m && m[k] == stored[k])
  {
    var m := Merge(given, stored, secrets);
    assert Get(m, k) == Kept(given, stored, secrets, k);
  }

  /** What is shown of each key: the secrets' texts emptied, also one level down, and the rest. */
  lemma RedactMeans(c: Config, secrets: seq<string>, k: string)
    requires k in c
    ensures var r := Redact(c, secrets);
      && r.Keys == c.Keys
      && (k !in secrets || c[k].Null? || c[k].Other? ==> r[k] == c[k])
      && (k in secrets && c[k].Text? ==> r[k] == Text(""))
      && (k in secrets && c[k].Fields? ==>
            && r[k].Fields? && r[k].fields.Keys == c[k].fields.Keys
            && forall f :: f in c[k].fields ==>
              r[k].fields[f] == if c[k].fields[f].Text? then Text("") else c[k].fields[f])
  {
    assert Redact(c, secrets).Keys == c.Keys;
  }

  // ---------- what the editor gets and sends back ----------

  /** A nested secret map with some text in it. */
  predicate HoldsNestedSecret(v: Value) {
    v.Fields? && exists k :: k in v.fields && v.fields[k].Text? && v.fields[k].text != ""
  }

  lemma RedactFieldsUnchanged(v: Value)
    requires v.Fields?
    ensures RedactValue(v) == v <==> !HoldsNestedSecret(v)
  {
    var r := RedactValue(v);
    if HoldsNestedSecret(v) {
      var k :| k in v.fields && v.fields[k].Text? && v.fields[k].text != "";
      assert r.fields[k] == Text("");
    } else {
      assert r.fields == v.fields;
    }
  }

  lemma KeptAfterRedact(c: Config, secrets: seq<string>, k: string)
    ensures k !in c ==> Kept(Redact(c, secrets), c, secrets, k) == None
    ensures k in c && !(k in secrets && HoldsNestedSecret(c[k])) ==> Kept(Redact(c, secrets), c, secrets, k) == Some(c[k])
    ensures k in c && k in secrets && HoldsNestedSecret(c[k]) ==>
      Kept(Redact(c, secrets), c, secrets, k) == Some(RedactValue(c[k])) && RedactValue(c[k]) != c[k]
  {
    if k in c && c[k].Fields? {
      RedactFieldsUnchanged(c[k]);
    }
    hide HoldsNestedSecret;
  }

  /** Saving what was shown, untouched, gives back the stored config exactly when no secret is
      a nested map with text in it; such a map comes back with its texts blanked. */
  lemma {:induction false} UntouchedEditKeepsIff(c: Config, secrets: seq<string>)
    ensures Merge(Redact(c, secrets), c, secrets) == c <==>
      forall k :: k in c && k in secrets ==> !HoldsNestedSecret(c[k])
  {
    var m := Merge(Redact(c, secrets), c, secrets);
    forall k ensures k in m <==> k in c {
      KeptAfterRedact(c, secrets, k);
    }
    forall k | k in c ensures m[k] == c[k] <==> !(k in secrets && HoldsNestedSecret(c[k])) {
      KeptAfterRedact(c, secrets, k);
    }
    hide HoldsNestedSecret, Merge, Redact;
    if forall k :: k in c && k in secrets ==> !HoldsNestedSecret(c[k]) {
      assert m == c;
    }
  }

  /** The two values differ at most in what a reader may not see. */
  predicate SameOutside(a: Value, b: Value) {
    || a == b
    || (a.Text? && b.Text?)
    || (a.Fields? && b.Fields? && a.fields.Keys == b.fields.Keys
        && forall k :: k in a.fields ==> a.fields[k] == b.fields[k] || (a.fields[k].Text? && b.fields[k].Text?))
  }

  lemma {:induction false} RedactValueHidesIff(a: Value, b: Value)
    ensures RedactValue(a) == RedactValue(b) <==> SameOutside(a, b)
  {
    if a.Fields? && b.Fields? {
      var ra, rb := RedactValue(a), RedactValue(b);
      assert ra.fields.Keys == a.fields.Keys && rb.fields.Keys == b.fields.Keys;
      if ra == rb {
        forall k | k in a.fields ensures a.fields[k] == b.fields[k] || (a.fields[k].Text? && b.fields[k].Text?) {
          assert ra.fields[k] == RedactField(a.fields[k]) && rb.fields[k] == RedactField(b.fields[k]);
        }
      }
      if SameOutside(a, b) {
        assert ra.fields == rb.fields;
      }
    }
  }

  /** Redaction shows exactly the non-secret part: two configs look the same if and only if
      they have the same keys, agree on every other key, and at secret keys differ only in
      texts, also inside nested maps. */
  lemma {:induction false} RedactionHidesIff(a: Config, b: Config, secrets: seq<string>)
    ensures Redact(a, secrets) == Redact(b, secrets) <==>
      && a.Keys == b.Keys
      && forall k :: k in a && k in b ==> if k in secrets then SameOutside(a[k], b[k]) else a[k] == b[k]
  {
    var ra, rb := Redact(a, secrets), Redact(b, secrets);
    assert ra.Keys == a.Keys && rb.Keys == b.Keys;
    forall k | k in a && k in b
      ensures ra[k] == rb[k] <==> if k in secrets then SameOutside(a[k], b[k]) else a[k] == b[k]
    {
      RedactValueHidesIff(a[k], b[k]);
    }
    hide RedactValue, SameOutside;
    if a.Keys == b.Keys && forall k :: k in a && k in b ==> if k in secrets then SameOutside(a[k], b[k]) else a[k] == b[k] {
      assert forall k :: k in ra ==> ra[k] == rb[k];
    }
  }
}
