/** The text the notifier's dedup key is hashed from (internal/alerting/service.go). */
module DedupKey {
  import opened Domain
  import opened Text
  import opened Engine
  import opened Notifications

  function Digit(d: nat): char
    requires d < 10
  {
    ('0' as int + d) as char
  }

  /** Decimal digits, most significant first. */
  function Digits(n: nat): (s: string)
    ensures |s| > 0 && forall i :: 0 <= i < |s| ==> IsDigit(s[i])
  {
    if n < 10 then [Digit(n)] else Digits(n / 10) + [Digit(n % 10)]
  }

  lemma {:induction false} NumberOfDigits(n: nat)
    ensures Number(Digits(n)) == n
  {
    var s := Digits(n);
    if n < 10 {
      assert s[..0] == [];
    } else {
      NumberOfDigits(n / 10);
      assert s[..|s| - 1] == Digits(n / 10);
    }
  }

  function Itoa(n: int): string {
    if n < 0 then "-" + Digits(-n) else Digits(n)
  }

  lemma NoColon(n: int)
    ensures ':' !in Itoa(n)
  {}

  lemma ItoaInjective(a: int, b: int)
    requires Itoa(a) == Itoa(b)
    ensures a == b
  {
    NumberOfDigits(if a < 0 then -a else a);
    NumberOfDigits(if b < 0 then -b else b);
    assert a < 0 <==> Itoa(a)[0] == '-';
    assert b < 0 <==> Itoa(b)[0] == '-';
    if a < 0 {
      assert Itoa(a)[1..] == Digits(-a) && Itoa(b)[1..] == Digits(-b);
    }
  }

  function KindText(k: EventKind): string {
    match k
    case Down => "down"
    case Recovery => "recovery"
  }

  /** What follows the incident id: the kind and, for an expiry warning, the level. */
  function Tail(k: Key): string {
    KindText(k.kind) + if k.warnDays.Some? then ":" + Itoa(k.warnDays.value) else ""
  }

  /** The hashed text: incident id, kind and level. */
  function Preimage(k: Key): string {
    Itoa(k.incidentId) + ":" + Tail(k)
  }

  /** The three shapes of the text. */
  lemma PreimageText(id: int, level: int)
    ensures Preimage(Key(id, Recovery, None)) == Itoa(id) + ":recovery"
    ensures Preimage(Key(id, Down, None)) == Itoa(id) + ":down"
    ensures Preimage(Key(id, Down, Some(level))) == Itoa(id) + ":down:" + Itoa(level)
  {
    hide Itoa;
    assert ":" + ("down" + (":" + Itoa(level))) == ":down:" + Itoa(level);
  }

  function FirstColon(s: string): nat {
    if |s| == 0 || s[0] == ':' then 0 else 1 + FirstColon(s[1..])
  }

  lemma {:induction false} FirstColonAfter(x: string, y: string)
    requires ':' !in x
    ensures FirstColon(x + ":" + y) == |x|
  {
    if |x| > 0 {
      FirstColonAfter(x[1..], y);
      assert (x + ":" + y)[1..] == x[1..] + ":" + y;
    }
  }

  /** Text before the first colon and text after it are determined by the whole. */
  lemma CutAtColon(x: string, y: string, u: string, v: string)
    requires ':' !in x && ':' !in u && x + ":" + y == u + ":" + v
    ensures x == u && y == v
  {
    FirstColonAfter(x, y);
    FirstColonAfter(u, v);
    var s := x + ":" + y;
    assert x == s[..|x|] && y == s[|x| + 1..];
    assert u == s[..|u|] && v == s[|u| + 1..];
  }

  lemma KindFromTail(k: Key)
    ensures |Tail(k)| >= |KindText(k.kind)| > 0 && Tail(k)[0] == KindText(k.kind)[0]
    ensures Tail(k)[|KindText(k.kind)|..] == if k.warnDays.Some? then ":" + Itoa(k.warnDays.value) else ""
  {
    hide Itoa;
  }

  /** A tail without a level never equals a tail with one. */
  lemma TailInjective(a: Key, b: Key)
    requires Tail(a) == Tail(b)
    ensures a.kind == b.kind && a.warnDays == b.warnDays
  {
    KindFromTail(a);
    KindFromTail(b);
    assert KindText(Down)[0] != KindText(Recovery)[0];
    hide Tail, Itoa, KindText;
    var rest := Tail(a)[|KindText(a.kind)|..];
    if a.warnDays.Some? && b.warnDays.Some? {
      assert rest[1..] == Itoa(a.warnDays.value) == Itoa(b.warnDays.value);
      ItoaInjective(a.warnDays.value, b.warnDays.value);
    }
  }

  /** Two notifications hash the same text only if they have the same dedup key, so with a
      collision-free hash the distinct keys of a history stay distinct. */
  lemma PreimageInjective(a: Key, b: Key)
    requires Preimage(a) == Preimage(b)
    ensures a == b
  {
    NoColon(a.incidentId);
    NoColon(b.incidentId);
    hide Itoa, Tail;
    CutAtColon(Itoa(a.incidentId), Tail(a), Itoa(b.incidentId), Tail(b));
    ItoaInjective(a.incidentId, b.incidentId);
    TailInjective(a, b);
  }
}
