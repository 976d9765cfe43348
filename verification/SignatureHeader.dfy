/** The webhook signature header (internal/billing/stub.go): `ts=<seconds>;h1=<mac>`. */
module SignatureHeader {
  import opened Domain
  import opened Text

  /** The text before and after the first equals sign, if there is one. */
  function Cut(s: string): Option<(string, string)> {
    if |s| == 0 then None
    else if s[0] == '=' then Some(("", s[1..]))
    else
      var rest := Cut(s[1..]);
      if rest.None? then None else Some(([s[0]] + rest.value.0, rest.value.1))
  }

  /** The value the last part with the given key has, or the empty text. */
  function LastValue(parts: seq<string>, key: string): string {
    if |parts| == 0 then ""
    else
      var c := Cut(Trim(parts[|parts| - 1]));
      if c.Some? && c.value.0 == key then c.value.1 else LastValue(parts[..|parts| - 1], key)
  }

  /** What a header says: the last ts and the last h1, both non-empty. */
  function Parse(sig: string): Option<(string, string)> {
    var ts, mac := LastValue(Split(sig, ';'), "ts"), LastValue(Split(sig, ';'), "h1");
    if ts == "" || mac == "" then None else Some((ts, mac))
  }

  /** The loop over the parts. */
  method ParseStubSig(sig: string) returns (r: Option<(string, string)>)
    ensures r == Parse(sig)
  {
    var parts := Split(sig, ';');
    var ts, mac := "", "";
    for i := 0 to |parts|
      invariant ts == LastValue(parts[..i], "ts") && mac == LastValue(parts[..i], "h1")
    {
      assert parts[..i + 1][..i] == parts[..i];
      var c := Cut(Trim(parts[i]));
      if c.None? {
        continue;
      }
      if c.value.0 == "ts" {
        ts := c.value.1;
      } else if c.value.0 == "h1" {
        mac := c.value.1;
      }
    }
    assert parts[..|parts|] == parts;
    if ts == "" || mac == "" {
      return None;
    }
    r := Some((ts, mac));
  }

  function Print(ts: string, mac: string): string {
    "ts=" + ts + ";h1=" + mac
  }

  predicate IsHex(mac: string) {
    mac != "" && forall i :: 0 <= i < |mac| ==> '0' <= mac[i] <= '9' || 'a' <= mac[i] <= 'f'
  }

  /** Verification of a header for a body, with the message authentication code left as a
      parameter: section 2 of RFC 2104 defines the one the program uses. */
  predicate Accepts(sign: (string, string, string) -> string, secret: string, body: string, sig: string) {
    var parsed := Parse(sig);
    parsed.Some? && sign(secret, parsed.value.0, body) == parsed.value.1
  }

  // ---------- printing and parsing ----------

  lemma {:induction false} CutValue(s: string)
    requires Cut(s).Some?
    ensures s == Cut(s).value.0 + "=" + Cut(s).value.1
  {
    if s[0] != '=' {
      CutValue(s[1..]);
      assert s == [s[0]] + s[1..];
    }
  }

  /** Whatever the header, a value that was read has no semicolon and does not end in space. */
  lemma {:induction false} ValuesAreClean(parts: seq<string>, key: string)
    requires forall i :: 0 <= i < |parts| ==> ';' !in parts[i]
    ensures ';' !in LastValue(parts, key) && !EndsInSpace(LastValue(parts, key))
  {
    if |parts| > 0 {
      ValuesAreClean(parts[..|parts| - 1], key);
      var part := parts[|parts| - 1];
      var t := Trim(part);
      if Cut(t).Some? {
        CutValue(t);
        TrimRightEnd(TrimLeft(part));
        if ';' in t {
          TrimWithin(part, ';');
        }
        var v := Cut(t).value.1;
        assert |v| > 0 ==> v[|v| - 1] == t[|t| - 1];
        assert forall c :: c in v ==> c in t;
      }
    }
  }

  /** A part that begins with its key and does not end in space is read back as it is. */
  lemma {:induction false} PartReadsBack(k0: char, k1: char, v: string)
    requires !IsSpace(k0) && k0 != '=' && k1 != '=' && !EndsInSpace(v)
    ensures Cut(Trim([k0, k1, '='] + v)) == Some(([k0, k1], v))
  {
    var part := [k0, k1, '='] + v;
    assert !EndsInSpace(part);
    assert Trim(part) == part;
    var p1 := part[1..];
    var p2 := p1[1..];
    assert p2[0] == '=' && p2[1..] == v;
    assert Cut(p2) == Some(("", v));
    assert p1[0] == k1 && Cut(p1) == Some(([k1] + "", v));
    assert Cut(part) == Some(([k0] + ([k1] + ""), v));
    assert [k0] + ([k1] + "") == [k0, k1];
  }

  /** Printing and parsing agree exactly on a non-empty timestamp that has no semicolon and
      does not end in space; anything else is rejected or read back as something else. */
  lemma {:induction false} RoundTripIff(ts: string, mac: string)
    requires IsHex(mac)
    ensures Parse(Print(ts, mac)) == Some((ts, mac)) <==> ts != "" && ';' !in ts && !EndsInSpace(ts)
  {
    var sig := Print(ts, mac);
    if ';' in ts || EndsInSpace(ts) {
      SplitParts(sig, ';');
      ValuesAreClean(Split(sig, ';'), "ts");
    } else {
      RoundTripParts(ts, mac);
    }
  }

  lemma {:induction false} LastOfTwo(a: string, b: string, key: string)
    ensures var x, y := Cut(Trim(a)), Cut(Trim(b));
      LastValue([a] + [b], key) ==
        if y.Some? && y.value.0 == key then y.value.1 else if x.Some? && x.value.0 == key then x.value.1 else ""
  {
    assert ([a] + [b])[..1] == [a] && [a][..0] == [];
    assert LastValue([], key) == "";
    hide Cut, Trim;
  }

  lemma {:induction false} RoundTripParts(ts: string, mac: string)
    requires IsHex(mac) && ';' !in ts && !EndsInSpace(ts)
    ensures LastValue(Split(Print(ts, mac), ';'), "ts") == ts && LastValue(Split(Print(ts, mac), ';'), "h1") == mac
  {
    var a, b := "ts=" + ts, "h1=" + mac;
    assert Print(ts, mac) == a + [';'] + b;
    SplitJoin(a, ';', b);
    SplitPlain(b, ';');
    PartReadsBack('t', 's', ts);
    PartReadsBack('h', '1', mac);
    assert a == ['t', 's', '='] + ts && b == ['h', '1', '='] + mac;
    hide Split, Cut, Trim;
    LastOfTwo(a, b, "ts");
    LastOfTwo(a, b, "h1");
  }

  /** Everything the signer prints for such a timestamp passes the signature check. */
  lemma SignedIsAccepted(sign: (string, string, string) -> string, secret: string, ts: string, body: string)
    requires IsHex(sign(secret, ts, body)) && ts != "" && ';' !in ts && !EndsInSpace(ts)
    ensures Accepts(sign, secret, body, Print(ts, sign(secret, ts, body)))
  {
    RoundTripIff(ts, sign(secret, ts, body));
  }

  /** Of headers as the signer prints them, with any hex code, exactly the one that carries the
      code of this timestamp and this body is accepted. */
  lemma AcceptedIff(sign: (string, string, string) -> string, secret: string, ts: string, mac: string, body: string)
    requires IsHex(mac) && ts != "" && ';' !in ts && !EndsInSpace(ts)
    ensures Accepts(sign, secret, body, "ts=" + ts + ";h1=" + mac) <==> mac == sign(secret, ts, body)
  {
    RoundTripIff(ts, mac);
    assert Print(ts, mac) == "ts=" + ts + ";h1=" + mac;
  }

  /** The part, trimmed, is the key, an equals sign and the value. */
  ghost predicate Carries(parts: seq<string>, key: string, value: string) {
    exists i :: 0 <= i < |parts| && Trim(parts[i]) == key + "=" + value
  }

  lemma {:induction false} LastValueIsCarried(parts: seq<string>, key: string)
    requires LastValue(parts, key) != ""
    ensures Carries(parts, key, LastValue(parts, key))
  {
    var part := parts[|parts| - 1];
    var c := Cut(Trim(part));
    if c.Some? && c.value.0 == key {
      CutValue(Trim(part));
    } else {
      LastValueIsCarried(parts[..|parts| - 1], key);
      var p, v := parts[..|parts| - 1], LastValue(parts[..|parts| - 1], key);
      hide Cut, Trim, LastValue;
      var i :| 0 <= i < |p| && Trim(p[i]) == key + "=" + v;
      assert Trim(parts[i]) == key + "=" + v;
    }
  }

  /** Whatever the header: if it is accepted it carries a timestamp and the code signed for that
      timestamp and this body; so nobody without the secret gets a body accepted. */
  lemma AcceptedIsSigned(sign: (string, string, string) -> string, secret: string, body: string, sig: string)
    requires Accepts(sign, secret, body, sig)
    ensures exists ts :: SignedFor(sign, secret, body, Split(sig, ';'), ts)
  {
    var parts := Split(sig, ';');
    LastValueIsCarried(parts, "ts");
    LastValueIsCarried(parts, "h1");
    assert SignedFor(sign, secret, body, parts, LastValue(parts, "ts"));
  }

  /** The parts carry the timestamp and the code signed for it and the body. */
  ghost predicate SignedFor(sign: (string, string, string) -> string, secret: string, body: string, parts: seq<string>, ts: string) {
    ts != "" && sign(secret, ts, body) != "" && Carries(parts, "ts", ts) && Carries(parts, "h1", sign(secret, ts, body))
  }
}
