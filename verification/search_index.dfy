/**
 The keys of the term index, and why an ordered scan of them answers a term query
 (pkg/search/engine.go, `Ingest`, `intersectTerms`, `scanPrefixIDs`). Strings are byte strings.
 */
module SearchIndex {
  import opened Bytes
  import opened Decimal

  const COLON: byte := 58
  const TIME_DIGITS: nat := 20

  /** "term:", "doc:", "idx:time:", "idx:lvl:", "idx:svc:", "fld:" */
  const TERM: Key := [116, 101, 114, 109, 58]
  const DOC: Key := [100, 111, 99, 58]
  const TIME: Key := [105, 100, 120, 58, 116, 105, 109, 101, 58]
  const LEVEL: Key := [105, 100, 120, 58, 108, 118, 108, 58]
  const SERVICE: Key := [105, 100, 120, 58, 115, 118, 99, 58]
  const FIELD: Key := [102, 108, 100, 58]

  datatype Field = Field(name: Key, value: Key)

  /** A validated record, with its JSON form and the tokens of its message. */
  datatype Record = Record(id: Key, timestamp: nat, level: Key, service: Key, json: seq<byte>,
                           tokens: seq<Key>, fields: seq<Field>)

  /** What Tokenize promises of a token. */
  predicate IsToken(t: Key) {
    t != [] && COLON !in t
  }

  predicate Tokens(ts: seq<Key>) {
    (forall t :: t in ts ==> IsToken(t)) && forall i, j :: 0 <= i < j < |ts| ==> ts[i] != ts[j]
  }

  /** Identifiers without ':' and without byte 0xFF, timestamps that are positive int64 values. */
  predicate Indexable(r: Record) {
    r.id != [] && COLON !in r.id && 255 !in r.id && 0 < r.timestamp < TWO63 && Tokens(r.tokens)
  }

  // ----- Keys -----

  /** "<prefix><what>:<timestamp>:<id>", the timestamp padded to 20 digits. */
  function StampedKey(prefix: Key, what: Key, timestamp: nat, id: Key): Key {
    prefix + (what + ([COLON] + (Padded(timestamp, TIME_DIGITS) + ([COLON] + id))))
  }

  function TermKey(token: Key, timestamp: nat, id: Key): Key {
    StampedKey(TERM, token, timestamp, id)
  }

  /** "term:<token>:<from>:" */
  function StartKey(token: Key, from: nat): Key {
    TERM + (token + ([COLON] + (Padded(from, TIME_DIGITS) + [COLON])))
  }

  /** "term:<token>:<to>:\xff" */
  function EndKey(token: Key, to: nat): Key {
    TERM + (token + ([COLON] + (Padded(to, TIME_DIGITS) + [COLON, 255])))
  }

  function TermKeys(tokens: seq<Key>, r: Record): seq<Key> {
    if tokens == [] then [] else [TermKey(tokens[0], r.timestamp, r.id)] + TermKeys(tokens[1..], r)
  }

  function FieldKeys(fields: seq<Field>, r: Record): seq<Key> {
    if fields == [] then []
    else [StampedKey(FIELD, fields[0].name + ([61] + fields[0].value), r.timestamp, r.id)] + FieldKeys(fields[1..], r)
  }

  /** The keys one ingested record is put under, the document first. */
  function KeysFor(r: Record): (keys: seq<Key>)
    ensures |keys| >= 4
  {
    [DOC + r.id, TIME + (Padded(r.timestamp, TIME_DIGITS) + ([COLON] + r.id)),
     StampedKey(LEVEL, r.level, r.timestamp, r.id), StampedKey(SERVICE, r.service, r.timestamp, r.id)]
    + TermKeys(r.tokens, r) + FieldKeys(r.fields, r)
  }

  lemma {:induction false} TermKeysAre(tokens: seq<Key>, r: Record)
    ensures forall k :: k in TermKeys(tokens, r) <==> exists t :: t in tokens && k == TermKey(t, r.timestamp, r.id)
  {
    if tokens != [] {
      TermKeysAre(tokens[1..], r);
      assert tokens == [tokens[0]] + tokens[1..];
    }
  }

  lemma {:induction false} FieldKeysAre(fields: seq<Field>, r: Record)
    ensures forall k :: k in FieldKeys(fields, r) ==> k != [] && k[0] == FIELD[0]
  {
    if fields != [] {
      FieldKeysAre(fields[1..], r);
    }
  }

  /** Of a record's keys, those that start with "term:" are its term keys. */
  lemma TermsOfRecord(r: Record, key: Key)
    requires TERM <= key
    ensures key in KeysFor(r) <==> exists t :: t in r.tokens && key == TermKey(t, r.timestamp, r.id)
  {
    TermKeysAre(r.tokens, r);
    FieldKeysAre(r.fields, r);
    assert key[0] == TERM[0] == 116;
    assert DOC[0] != 116 && TIME[0] != 116 && LEVEL[0] != 116 && SERVICE[0] != 116 && FIELD[0] != 116;
  }

  // ----- The order of the keys -----

  /** Up to the first ':' a string is determined by what it starts with. */
  lemma {:induction false} FirstPart(a: Key, b: Key, rest: Key)
    requires COLON !in a && COLON !in b && a + [COLON] <= b + ([COLON] + rest)
    ensures a == b
  {
    var s := b + ([COLON] + rest);
    assert s[|a|] == COLON;
    if a != [] {
      assert s[0] == a[0];
      assert b != [] && b[0] == a[0];
      assert s[1..] == b[1..] + ([COLON] + rest);
      assert (a + [COLON])[1..] == a[1..] + [COLON];
      assert forall x :: x in a[1..] ==> x in a;
      assert forall x :: x in b[1..] ==> x in b;
      FirstPart(a[1..], b[1..], rest);
    }
  }

  lemma TimeFits(t: nat)
    requires t < TWO63
    ensures t < Pow10(TIME_DIGITS)
  {
    assert Pow10(1) == 10 && Pow10(2) == 100 && Pow10(3) == 1000;
    assert Pow10(4) == 10000 && Pow10(5) == 100000 && Pow10(6) == 1000000;
    assert Pow10(7) == 10 * Pow10(6) && Pow10(8) == 10 * Pow10(7) && Pow10(9) == 10 * Pow10(8);
    assert Pow10(10) == 10 * Pow10(9) && Pow10(11) == 10 * Pow10(10) && Pow10(12) == 10 * Pow10(11);
    assert Pow10(13) == 10 * Pow10(12) && Pow10(14) == 10 * Pow10(13) && Pow10(15) == 10 * Pow10(14);
    assert Pow10(16) == 10 * Pow10(15) && Pow10(17) == 10 * Pow10(16) && Pow10(18) == 10 * Pow10(17);
    assert Pow10(19) == 10 * Pow10(18) && Pow10(20) == 10 * Pow10(19);
  }

  /** Behind the token: the padded times decide, and at equal times ':' and ':\xff' enclose every id. */
  lemma TimeRange(from: nat, t: nat, to: nat, id: Key)
    requires from < TWO63 && t < TWO63 && to < TWO63 && 255 !in id
    ensures AtMost(Padded(from, TIME_DIGITS) + [COLON], Padded(t, TIME_DIGITS) + ([COLON] + id)) <==> from <= t
    ensures AtMost(Padded(t, TIME_DIGITS) + ([COLON] + id), Padded(to, TIME_DIGITS) + [COLON, 255]) <==> t <= to
  {
    TimeFits(from);
    TimeFits(t);
    TimeFits(to);
    if t == from {
      CommonPrefixCancels(Padded(t, TIME_DIGITS), [COLON] + id, [COLON]);
      ColonFirst(id);
    } else {
      PaddedOrder(t, from, TIME_DIGITS, [COLON] + id, [COLON]);
    }
    if t == to {
      CommonPrefixCancels(Padded(t, TIME_DIGITS), [COLON, 255], [COLON] + id);
      BelowLastByte(id);
    } else {
      PaddedOrder(to, t, TIME_DIGITS, [COLON, 255], [COLON] + id);
    }
  }

  lemma ColonFirst(id: Key)
    ensures !Less([COLON] + id, [COLON])
  {
    assert ([COLON] + id)[1..] == id && [COLON][1..] == [];
  }

  lemma BelowLastByte(id: Key)
    requires 255 !in id
    ensures !Less([COLON, 255], [COLON] + id)
  {
    assert ([COLON] + id)[1..] == id && [COLON, 255][1..] == [255];
    if id != [] {
      assert id[0] in id;
    }
  }

  /** A term key lies in the scanned range exactly when it has the token and a time in the interval. */
  lemma TermKeyInRange(token: Key, from: nat, to: nat, t: Key, timestamp: nat, id: Key)
    requires IsToken(token) && IsToken(t) && 255 !in id
    requires from < TWO63 && to < TWO63 && timestamp < TWO63
    ensures (AtMost(StartKey(token, from), TermKey(t, timestamp, id))
             && AtMost(TermKey(t, timestamp, id), EndKey(token, to)))
      <==> t == token && from <= timestamp <= to
  {
    var lo, hi := Padded(from, TIME_DIGITS) + [COLON], Padded(to, TIME_DIGITS) + [COLON, 255];
    var mid := Padded(timestamp, TIME_DIGITS) + ([COLON] + id);
    hide Padded, Less;
    if t == token {
      InsidePrefix(token, lo, mid);
      InsidePrefix(token, mid, hi);
      TimeRange(from, timestamp, to, id);
    } else if AtMost(StartKey(token, from), TermKey(t, timestamp, id))
      && AtMost(TermKey(t, timestamp, id), EndKey(token, to)) {
      InRangeHasToken(token, lo, hi, TermKey(t, timestamp, id));
      SameToken(token, t, mid);
    }
  }

  lemma InsidePrefix(token: Key, a: Key, b: Key)
    ensures AtMost(TERM + (token + ([COLON] + a)), TERM + (token + ([COLON] + b))) <==> AtMost(a, b)
  {
    CommonPrefixCancels(TERM, token + ([COLON] + b), token + ([COLON] + a));
    CommonPrefixCancels(token, [COLON] + b, [COLON] + a);
    CommonPrefixCancels([COLON], b, a);
  }

  /** Everything in the range starts with "term:<token>:". */
  lemma InRangeHasToken(token: Key, lo: Key, hi: Key, key: Key)
    requires AtMost(TERM + (token + ([COLON] + lo)), key) && AtMost(key, TERM + (token + ([COLON] + hi)))
    ensures TERM + (token + [COLON]) <= key && TERM <= key
  {
    var p := TERM + (token + [COLON]);
    assert TERM + (token + ([COLON] + lo)) == p + lo && TERM + (token + ([COLON] + hi)) == p + hi;
    BetweenKeepsPrefix(p, lo, hi, key);
  }

  lemma SameToken(token: Key, t: Key, rest: Key)
    requires IsToken(token) && IsToken(t) && TERM + (token + [COLON]) <= TERM + (t + ([COLON] + rest))
    ensures token == t
  {
    assert (TERM + (token + [COLON]))[|TERM|..] == token + [COLON];
    assert (TERM + (t + ([COLON] + rest)))[|TERM|..] == t + ([COLON] + rest);
    FirstPart(token, t, rest);
  }

  // ----- Taking a key apart -----

  /** `strings.Split(s, ":")` */
  function Split(s: Key): (r: seq<Key>)
    ensures |r| > 0
  {
    if s == [] then [[]]
    else if s[0] == COLON then [[]] + Split(s[1..])
    else
      var rest := Split(s[1..]);
      [[s[0]] + rest[0]] + rest[1..]
  }

  lemma {:induction false} SplitFirst(a: Key, b: Key)
    requires COLON !in a
    ensures Split(a + ([COLON] + b)) == [a] + Split(b)
  {
    var s := a + ([COLON] + b);
    if a == [] {
      assert s[1..] == b;
    } else {
      assert s[0] == a[0] && a[0] in a;
      assert s[1..] == a[1..] + ([COLON] + b);
      assert forall x :: x in a[1..] ==> x in a;
      SplitFirst(a[1..], b);
      assert [a[0]] + a[1..] == a;
      assert ([a[1..]] + Split(b))[1..] == Split(b);
    }
  }

  lemma {:induction false} SplitWhole(a: Key)
    requires COLON !in a
    ensures Split(a) == [a]
  {
    if a != [] {
      assert a[0] in a && forall x :: x in a[1..] ==> x in a;
      SplitWhole(a[1..]);
      assert [a[0]] + a[1..] == a;
    }
  }

  lemma {:induction false} DigitsHaveNoColon(n: nat, w: nat)
    ensures COLON !in Digits(n, w)
  {
    if w > 0 {
      DigitsHaveNoColon(n / 10, w - 1);
    }
  }

  /** A term key splits into its four parts, the identifier last. */
  lemma SplitTermKey(token: Key, timestamp: nat, id: Key)
    requires IsToken(token) && COLON !in id
    ensures Split(TermKey(token, timestamp, id)) == [TERM[..4], token, Padded(timestamp, TIME_DIGITS), id]
  {
    var time := Padded(timestamp, TIME_DIGITS);
    DigitsHaveNoColon(timestamp, |time|);
    var rest := token + ([COLON] + (time + ([COLON] + id)));
    assert TERM + rest == TERM[..4] + ([COLON] + rest);
    SplitFirst(TERM[..4], rest);
    SplitFirst(token, time + ([COLON] + id));
    SplitFirst(time, id);
    SplitWhole(id);
  }
}
