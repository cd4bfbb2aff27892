/** What the store holds once records have been ingested (pkg/search/engine.go, `Ingest`, `GetByID`). */
module SearchContents {
  import opened Bytes
  import opened Entries
  import opened Upsert
  import opened Storage
  import opened Decimal
  import opened SearchIndex

  // ----- The puts of one record -----

  /** The puts of one ingested record: the document under its key, nothing under the others. */
  ghost predicate IngestedAs(added: seq<Entry>, r: Record) {
    PutsFor(added, KeysFor(r), r.json)
  }

  /** The puts of the first keys of a record. */
  ghost predicate PutsFor(added: seq<Entry>, keys: seq<Key>, json: seq<byte>) {
    && |added| == |keys|
    && forall i :: 0 <= i < |added| ==>
         added[i].key == keys[i] && added[i].op == OP_PUT && added[i].value == if i == 0 then json else []
  }

  lemma OneMorePut(added: seq<Entry>, keys: seq<Key>, i: nat, json: seq<byte>, now: int64)
    requires i < |keys| && PutsFor(added, keys[..i], json)
    ensures PutsFor(added + [PutEntry(keys[i], if i == 0 then json else [], now)], keys[..i + 1], json)
  {
  }

  lemma {:induction false} LastOfPuts(added: seq<Entry>, key: Key)
    requires forall e :: e in added ==> e.op == OP_PUT
    ensures LastOf(added, key).Some? ==> Visible(LastOf(added, key)).Some?
    ensures LastOf(added, key).Some? <==> exists e :: e in added && e.key == key
  {
    if added != [] {
      var n := |added| - 1;
      LastOfPuts(added[..n], key);
      assert added == added[..n] + [added[n]];
    }
  }

  lemma IngestedKeys(added: seq<Entry>, r: Record, key: Key)
    requires IngestedAs(added, r)
    ensures LastOf(added, key).Some? <==> key in KeysFor(r)
    ensures LastOf(added, key).Some? ==> Visible(LastOf(added, key)).Some?
  {
    hide KeysFor, LastOf;
    LastOfPuts(added, key);
    if key in KeysFor(r) {
      var i :| 0 <= i < |KeysFor(r)| && KeysFor(r)[i] == key;
      assert added[i] in added;
    }
  }

  // ----- The keys, spelled out -----

  /** ":<timestamp>:<id>", the timestamp padded to 20 digits. */
  function Stamp(r: Record): Key {
    [COLON] + Padded(r.timestamp, 20) + [COLON] + r.id
  }

  /** A key under which nothing but its existence is stored. */
  ghost predicate MarkedBy(key: Key, r: Record) {
    || key == TIME + Padded(r.timestamp, 20) + [COLON] + r.id
    || key == LEVEL + r.level + Stamp(r)
    || key == SERVICE + r.service + Stamp(r)
    || (exists t :: t in r.tokens && key == TERM + t + Stamp(r))
    || (exists f :: f in r.fields && key == FIELD + f.name + [61] + f.value + Stamp(r))
  }

  lemma SpelledTerm(t: Key, r: Record)
    ensures TermKey(t, r.timestamp, r.id) == TERM + t + Stamp(r)
  {
    hide Padded;
  }

  lemma {:induction false} FieldKeysSpelled(fields: seq<Field>, r: Record, key: Key)
    ensures key in FieldKeys(fields, r) <==>
      exists f :: f in fields && key == FIELD + f.name + [61] + f.value + Stamp(r)
  {
    hide Padded;
    if fields != [] {
      FieldKeysSpelled(fields[1..], r, key);
      assert fields == [fields[0]] + fields[1..];
      var f := fields[0];
      assert StampedKey(FIELD, f.name + ([61] + f.value), r.timestamp, r.id) ==
        FIELD + f.name + [61] + f.value + Stamp(r);
    }
  }

  lemma TermKeysSpelled(r: Record, key: Key)
    ensures key in TermKeys(r.tokens, r) <==> exists t :: t in r.tokens && key == TERM + t + Stamp(r)
  {
    hide TermKey, Stamp;
    TermKeysAre(r.tokens, r);
    if key in TermKeys(r.tokens, r) {
      var t :| t in r.tokens && key == TermKey(t, r.timestamp, r.id);
      SpelledTerm(t, r);
    }
    if t :| t in r.tokens && key == TERM + t + Stamp(r) {
      SpelledTerm(t, r);
    }
  }

  /** A record is stored under its document key first, and under its marks. */
  lemma KeysSpelled(r: Record, key: Key)
    ensures KeysFor(r)[0] == DOC + r.id
    ensures key in KeysFor(r) <==> key == DOC + r.id || MarkedBy(key, r)
  {
    hide Padded, TermKeys, FieldKeys;
    TermKeysSpelled(r, key);
    FieldKeysSpelled(r.fields, r, key);
    assert TIME + (Padded(r.timestamp, TIME_DIGITS) + ([COLON] + r.id)) ==
      TIME + Padded(r.timestamp, 20) + [COLON] + r.id;
    assert StampedKey(LEVEL, r.level, r.timestamp, r.id) == LEVEL + r.level + Stamp(r);
    assert StampedKey(SERVICE, r.service, r.timestamp, r.id) == SERVICE + r.service + Stamp(r);
  }

  /** No mark is a document key. */
  lemma MarksAreNoDocuments(key: Key, r: Record, id: Key)
    requires MarkedBy(key, r)
    ensures key != DOC + id
  {
    hide Padded, Stamp;
    assert (DOC + id)[0] == 100;
    assert key != [] && key[0] in {116, 105, 102};
  }

  // ----- What records leave in the store -----

  /** One of the six kinds of keys. */
  predicate OfIndex(key: Key) {
    DOC <= key || TIME <= key || LEVEL <= key || SERVICE <= key || TERM <= key || FIELD <= key
  }

  /** Documents under their identifiers, the last of each; nothing under the marks. */
  ghost function Stored(records: seq<Record>, key: Key): Option<seq<byte>> {
    if records == [] then None
    else
      var r := records[|records| - 1];
      if key == DOC + r.id then Some(r.json) else if MarkedBy(key, r) then Some([])
      else Stored(records[..|records| - 1], key)
  }

  /** Of the index, exactly what the records leave there can be read. */
  ghost predicate IndexIs(hist: seq<Entry>, records: seq<Record>) {
    forall key: Key :: OfIndex(key) ==> Visible(LastOf(hist, key)) == Stored(records, key)
  }

  /** What the puts of a record make readable. */
  lemma IngestedValue(added: seq<Entry>, r: Record, key: Key)
    requires IngestedAs(added, r)
    ensures Visible(LastOf(added, key)) ==
      if key == DOC + r.id then Some(r.json) else if MarkedBy(key, r) then Some([]) else None
  {
    hide KeysFor, MarkedBy;
    KeysSpelled(r, key);
    IngestedKeys(added, r, key);
    if LastOf(added, key).Some? {
      ValueOfPuts(added, KeysFor(r), r.json, key);
      forall i | 0 < i < |KeysFor(r)|
        ensures KeysFor(r)[i] != DOC + r.id
      {
        OnlyFirstIsDocument(r, i);
      }
    }
  }

  lemma OnlyFirstIsDocument(r: Record, i: nat)
    requires 0 < i < |KeysFor(r)|
    ensures KeysFor(r)[i] != DOC + r.id
  {
    hide Padded, TermKeys, FieldKeys;
    var key, n := KeysFor(r)[i], |TermKeys(r.tokens, r)|;
    assert (DOC + r.id)[0] == 100;
    if i >= 4 {
      if i < 4 + n {
        assert key == TermKeys(r.tokens, r)[i - 4];
        TermKeysAre(r.tokens, r);
        assert key in TermKeys(r.tokens, r);
        var t :| t in r.tokens && key == TermKey(t, r.timestamp, r.id);
        assert key[0] == TERM[0];
      } else {
        assert key == FieldKeys(r.fields, r)[i - 4 - n];
        FieldKeysAre(r.fields, r);
      }
    }
  }

  lemma {:induction false} LastIsOne(added: seq<Entry>, key: Key) returns (i: nat)
    requires LastOf(added, key).Some?
    ensures i < |added| && added[i] == LastOf(added, key).value && added[i].key == key
  {
    var n := |added| - 1;
    if added[n].key == key {
      i := n;
    } else {
      i := LastIsOne(added[..n], key);
    }
  }

  lemma ValueOfPuts(added: seq<Entry>, keys: seq<Key>, json: seq<byte>, key: Key)
    requires PutsFor(added, keys, json) && LastOf(added, key).Some? && keys != []
    ensures key == keys[0] && (forall i :: 0 < i < |keys| ==> keys[i] != keys[0]) ==>
      Visible(LastOf(added, key)) == Some(json)
    ensures key != keys[0] ==> Visible(LastOf(added, key)) == Some([])
  {
    var i := LastIsOne(added, key);
  }

  /** Ingesting one more record, whatever was stored before. */
  lemma IngestKeepsIndex(hist: seq<Entry>, records: seq<Record>, added: seq<Entry>, r: Record)
    requires IndexIs(hist, records) && IngestedAs(added, r)
    ensures IndexIs(hist + added, records + [r])
  {
    hide IngestedAs, MarkedBy, LastOf;
    var all := records + [r];
    assert all[..|all| - 1] == records;
    forall key: Key | OfIndex(key)
      ensures Visible(LastOf(hist + added, key)) == Stored(all, key)
    {
      LastOfConcat(hist, added, key);
      IngestedValue(added, r, key);
      NotHidden(added, r, key);
    }
  }

  lemma NotHidden(added: seq<Entry>, r: Record, key: Key)
    requires IngestedAs(added, r)
    ensures LastOf(added, key).Some? ==> Visible(LastOf(added, key)).Some?
  {
    IngestedKeys(added, r, key);
  }

  // ----- What that means, prefix by prefix -----

  /** The JSON of the last record with the identifier. */
  function LastWith(records: seq<Record>, id: Key): Option<seq<byte>> {
    if records == [] then None
    else if records[|records| - 1].id == id then Some(records[|records| - 1].json)
    else LastWith(records[..|records| - 1], id)
  }

  /** The document of an identifier is that of the last record with it. */
  lemma {:induction false} StoredDocument(records: seq<Record>, id: Key)
    ensures OfIndex(DOC + id) && Stored(records, DOC + id) == LastWith(records, id)
  {
    hide MarkedBy;
    assert DOC <= DOC + id;
    if records != [] {
      var r := records[|records| - 1];
      StoredDocument(records[..|records| - 1], id);
      if DOC + id == DOC + r.id {
        assert (DOC + id)[|DOC|..] == id && (DOC + r.id)[|DOC|..] == r.id;
      }
      if MarkedBy(DOC + id, r) {
        MarksAreNoDocuments(DOC + id, r, id);
      }
    }
  }

  /** Another key can be read exactly when it is a mark of some record. */
  lemma {:induction false} StoredMark(records: seq<Record>, key: Key)
    requires !(DOC <= key)
    ensures Stored(records, key) ==
      if exists i :: 0 <= i < |records| && MarkedBy(key, records[i]) then Some([]) else None
  {
    hide MarkedBy;
    if records != [] {
      var n := |records| - 1;
      StoredMark(records[..n], key);
      assert forall i :: 0 <= i < n ==> records[..n][i] == records[i];
      assert DOC <= DOC + records[n].id;
    }
  }

  /** Which record fields a mark of each prefix comes from. */
  lemma MarksByPrefix(key: Key, r: Record)
    ensures TIME <= key ==> (MarkedBy(key, r) <==> key == TIME + Padded(r.timestamp, 20) + [COLON] + r.id)
    ensures LEVEL <= key ==> (MarkedBy(key, r) <==> key == LEVEL + r.level + Stamp(r))
    ensures SERVICE <= key ==> (MarkedBy(key, r) <==> key == SERVICE + r.service + Stamp(r))
    ensures TERM <= key ==> (MarkedBy(key, r) <==> exists t :: t in r.tokens && key == TERM + t + Stamp(r))
    ensures FIELD <= key ==>
      (MarkedBy(key, r) <==> exists f :: f in r.fields && key == FIELD + f.name + [61] + f.value + Stamp(r))
  {
    hide Padded, Stamp;
    PrefixesApart(key, TIME + Padded(r.timestamp, 20) + [COLON] + r.id, TIME);
    PrefixesApart(key, LEVEL + r.level + Stamp(r), LEVEL);
    PrefixesApart(key, SERVICE + r.service + Stamp(r), SERVICE);
    forall t | t in r.tokens
      ensures TERM <= TERM + t + Stamp(r)
    {
    }
    forall f | f in r.fields
      ensures FIELD <= FIELD + f.name + [61] + f.value + Stamp(r)
    {
    }
    OnePrefix(key);
  }

  lemma PrefixesApart(key: Key, mark: Key, prefix: Key)
    requires prefix <= mark
    ensures key == mark ==> prefix <= key
  {
  }

  /** No key has two of the prefixes. */
  lemma OnePrefix(key: Key)
    ensures TIME <= key ==> !(LEVEL <= key) && !(SERVICE <= key) && !(TERM <= key) && !(FIELD <= key) && !(DOC <= key)
    ensures LEVEL <= key ==> !(SERVICE <= key) && !(TERM <= key) && !(FIELD <= key) && !(DOC <= key)
    ensures SERVICE <= key ==> !(TERM <= key) && !(FIELD <= key) && !(DOC <= key)
    ensures TERM <= key ==> !(FIELD <= key) && !(DOC <= key)
    ensures FIELD <= key ==> !(DOC <= key)
  {
    assert TIME <= key ==> key[0] == 105 && key[4] == 116;
    assert LEVEL <= key ==> key[0] == 105 && key[4] == 108;
    assert SERVICE <= key ==> key[0] == 105 && key[4] == 115;
    assert TERM <= key ==> key[0] == 116;
    assert FIELD <= key ==> key[0] == 102;
    assert DOC <= key ==> key[0] == 100;
  }
}
