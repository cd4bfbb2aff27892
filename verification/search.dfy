/** The search engine over the store: ingesting records and intersecting terms (pkg/search/engine.go). */
module Search {
  import opened Bytes
  import opened Entries
  import opened Runs
  import opened Upsert
  import opened Levels
  import opened Storage
  import opened Machine
  import opened Scans
  import opened Merger
  import opened Engines
  import opened FlushGuard
  import opened Picker
  import Compactor
  import Opener
  import Safety
  import opened SearchIndex
  import opened SearchContents

  // ----- What a history has indexed -----

  ghost predicate HasTerm(records: seq<Record>, key: Key) {
    exists i, t :: 0 <= i < |records| && t in records[i].tokens
      && key == TermKey(t, records[i].timestamp, records[i].id)
  }

  /** The "term:" keys that can be read are those of the records. */
  ghost predicate TermsAre(hist: seq<Entry>, records: seq<Record>) {
    forall key: Key :: TERM <= key ==> (Visible(LastOf(hist, key)).Some? <==> HasTerm(records, key))
  }

  /** Its keys and its JSON can be stored. */
  ghost predicate Storable(r: Record) {
    |r.json| < TWO31 && forall k :: k in KeysFor(r) ==> 0 < |k| < TWO16
  }

  lemma KeyThere(r: Record, key: Key)
    requires key in KeysFor(r)
    ensures key != []
  {
    FieldKeysAre(r.fields, r);
    TermKeysAre(r.tokens, r);
  }

  lemma KeysStorable(r: Record, key: Key, value: seq<byte>, now: int64)
    requires Storable(r) && key in KeysFor(r) && (value == r.json || value == [])
    ensures key != [] && PutEntry(key, value, now).Storable()
  {
    hide KeysFor;
  }

  /** Ingesting a record indexes its tokens, and nothing else, whatever was indexed before. */
  lemma IngestIndexes(hist: seq<Entry>, records: seq<Record>, added: seq<Entry>, r: Record)
    requires TermsAre(hist, records) && IngestedAs(added, r)
    ensures TermsAre(hist + added, records + [r])
  {
    var all := records + [r];
    forall key: Key | TERM <= key
      ensures Visible(LastOf(hist + added, key)).Some? <==> HasTerm(all, key)
    {
      LastOfConcat(hist, added, key);
      IngestedKeys(added, r, key);
      TermsOfRecord(r, key);
      OneMoreRecord(records, r, key);
    }
  }

  lemma OneMoreRecord(records: seq<Record>, r: Record, key: Key)
    ensures HasTerm(records + [r], key) <==>
      HasTerm(records, key) || exists t :: t in r.tokens && key == TermKey(t, r.timestamp, r.id)
  {
    hide TermKey;
    var all := records + [r];
    if HasTerm(records, key) {
      var i, t :| 0 <= i < |records| && t in records[i].tokens
        && key == TermKey(t, records[i].timestamp, records[i].id);
      assert all[i] == records[i];
    }
    if t :| t in r.tokens && key == TermKey(t, r.timestamp, r.id) {
      assert all[|records|] == r;
    }
  }

  // ----- The identifiers a scan yields -----

  function LastPart(key: Key): Key {
    Split(key)[|Split(key)| - 1]
  }

  /** The last parts of the keys with four parts or more, each once, in order. */
  function IdsOf(es: seq<Entry>): seq<Key> {
    if es == [] then []
    else
      var before, key := IdsOf(es[..|es| - 1]), es[|es| - 1].key;
      if |Split(key)| >= 4 && LastPart(key) !in before then before + [LastPart(key)] else before
  }

  lemma {:induction false} IdsOfAre(es: seq<Entry>)
    ensures forall id :: id in IdsOf(es) <==> exists e :: e in es && |Split(e.key)| >= 4 && LastPart(e.key) == id
    ensures forall i, j :: 0 <= i < j < |IdsOf(es)| ==> IdsOf(es)[i] != IdsOf(es)[j]
  {
    if es != [] {
      var n := |es| - 1;
      IdsOfAre(es[..n]);
      assert es == es[..n] + [es[n]];
      var before := IdsOf(es[..n]);
      if |Split(es[n].key)| >= 4 && LastPart(es[n].key) !in before {
        assert forall i :: 0 <= i < |before| ==> before[i] in before;
      }
    }
  }

  ghost predicate InTime(r: Record, from: nat, to: nat) {
    from <= r.timestamp <= to
  }

  /** Some record with this identifier has the token and a time in the interval. */
  ghost predicate TokenAt(records: seq<Record>, token: Key, from: nat, to: nat, id: Key) {
    exists i :: 0 <= i < |records| && records[i].id == id && token in records[i].tokens && InTime(records[i], from, to)
  }

  ghost predicate AllIndexable(records: seq<Record>) {
    forall i :: 0 <= i < |records| ==> Indexable(records[i])
  }

  ghost function TermIds(s: Live, token: Key, from: nat, to: nat): seq<Key>
    requires LevelsOk(s.shot.levels, s.shot.readers)
  {
    IdsOf(ScanPairs(s, StartKey(token, from), EndKey(token, to)))
  }

  /** What the index scan of one token yields. */
  lemma ScanYieldsToken(s: Live, records: seq<Record>, token: Key, from: nat, to: nat, id: Key)
    requires LiveInv(s) && TermsAre(s.hist, records) && AllIndexable(records) && IsToken(token) && from < TWO63
    requires to < TWO63
    ensures LevelsOk(s.shot.levels, s.shot.readers)
    ensures id in TermIds(s, token, from, to) <==> TokenAt(records, token, from, to, id)
  {
    hide LiveInv, LevelsOk, ScanPairs, IdsOf, StartKey, EndKey, TermKey, Split, LastPart, LastOf, Find;
    ScanAgreesWithView(s, StartKey(token, from), EndKey(token, to));
    var pairs := ScanPairs(s, StartKey(token, from), EndKey(token, to));
    IdsOfAre(pairs);
    if id in IdsOf(pairs) {
      var e :| e in pairs && |Split(e.key)| >= 4 && LastPart(e.key) == id;
      FindMember(pairs, e);
      PairIsTerm(s.hist, records, token, from, to, e.key);
    }
    if TokenAt(records, token, from, to, id) {
      var i :| 0 <= i < |records| && records[i].id == id && token in records[i].tokens && InTime(records[i], from, to);
      TermIsPair(s.hist, records, token, from, to, i);
      var key := TermKey(token, records[i].timestamp, records[i].id);
      var e := Find(pairs, key).value;
      assert e in pairs && e.key == key;
    }
  }

  lemma EndKeyNotEmpty(token: Key, to: nat)
    ensures EndKey(token, to) != []
  {
  }

  lemma PairIsTerm(hist: seq<Entry>, records: seq<Record>, token: Key, from: nat, to: nat, key: Key)
    requires TermsAre(hist, records) && AllIndexable(records) && IsToken(token) && from < TWO63 && to < TWO63
    requires Within(key, StartKey(token, from), EndKey(token, to)) && Visible(LastOf(hist, key)).Some?
    ensures |Split(key)| == 4 && TokenAt(records, token, from, to, LastPart(key))
  {
    hide LastOf, Split, TermKey;
    EndKeyNotEmpty(token, to);
    InRangeHasToken(token, Decimal.Padded(from, TIME_DIGITS) + [COLON], Decimal.Padded(to, TIME_DIGITS) + [COLON, 255],
      key);
    var i, t :| 0 <= i < |records| && t in records[i].tokens && key == TermKey(t, records[i].timestamp, records[i].id);
    TermKeyInRange(token, from, to, t, records[i].timestamp, records[i].id);
    SplitTermKey(t, records[i].timestamp, records[i].id);
  }

  lemma TermIsPair(hist: seq<Entry>, records: seq<Record>, token: Key, from: nat, to: nat, i: nat)
    requires TermsAre(hist, records) && AllIndexable(records) && IsToken(token) && from < TWO63 && to < TWO63
    requires i < |records| && token in records[i].tokens && InTime(records[i], from, to)
    ensures var key := TermKey(token, records[i].timestamp, records[i].id);
      && Within(key, StartKey(token, from), EndKey(token, to)) && Visible(LastOf(hist, key)).Some?
      && |Split(key)| == 4 && LastPart(key) == records[i].id
  {
    hide LastOf, Split;
    var key := TermKey(token, records[i].timestamp, records[i].id);
    EndKeyNotEmpty(token, to);
    TermKeyInRange(token, from, to, token, records[i].timestamp, records[i].id);
    SplitTermKey(token, records[i].timestamp, records[i].id);
    assert TERM <= key;
  }

  // ----- Intersection -----

  /** In every token's scan. */
  ghost predicate InAll(s: Live, tokens: seq<Key>, from: nat, to: nat, id: Key)
    requires LevelsOk(s.shot.levels, s.shot.readers)
  {
    forall t :: t in tokens ==> id in TermIds(s, t, from, to)
  }

  /** The message contains every query token and the time lies in the interval. */
  ghost predicate Matches(r: Record, tokens: seq<Key>, from: nat, to: nat) {
    (forall t :: t in tokens ==> t in r.tokens) && InTime(r, from, to)
  }

  /** Some record with this identifier matches. */
  ghost predicate SomeMatches(records: seq<Record>, tokens: seq<Key>, from: nat, to: nat, id: Key) {
    exists i :: 0 <= i < |records| && records[i].id == id && Matches(records[i], tokens, from, to)
  }

  /** A query as intersectTerms meets it. */
  ghost predicate IsQuery(tokens: seq<Key>, from: nat, to: nat) {
    Tokens(tokens) && tokens != [] && from < TWO63 && to < TWO63
  }

  /** The records of an identifier that hold the query's tokens between them, each within the interval. */
  ghost predicate Found(records: seq<Record>, tokens: seq<Key>, from: nat, to: nat, id: Key) {
    forall t :: t in tokens ==> TokenAt(records, t, from, to, id)
  }

  /** In terms of the records. */
  lemma InAllIsFound(s: Live, records: seq<Record>, tokens: seq<Key>, from: nat, to: nat, id: Key)
    requires LiveInv(s) && TermsAre(s.hist, records) && AllIndexable(records) && IsQuery(tokens, from, to)
    ensures LevelsOk(s.shot.levels, s.shot.readers)
    ensures InAll(s, tokens, from, to, id) <==> Found(records, tokens, from, to, id)
  {
    hide LiveInv, TermsAre, TermIds, LevelsOk, TokenAt, AllIndexable;
    ScanYieldsToken(s, records, tokens[0], from, to, id);
    forall t | t in tokens
      ensures id in TermIds(s, t, from, to) <==> TokenAt(records, t, from, to, id)
    {
      ScanYieldsToken(s, records, t, from, to, id);
    }
  }

  /** Record k stands in for i and j together: it has their tokens, and a time between theirs. */
  ghost predicate StandsIn(records: seq<Record>, i: nat, j: nat, k: nat)
    requires i < |records| && j < |records| && k < |records|
  {
    && records[k].id == records[i].id
    && (forall t :: t in records[i].tokens || t in records[j].tokens ==> t in records[k].tokens)
    && Least(records[i].timestamp, records[j].timestamp) <= records[k].timestamp
    && records[k].timestamp <= Greatest(records[i].timestamp, records[j].timestamp)
  }

  function Least(a: nat, b: nat): nat {
    if a < b then a else b
  }

  function Greatest(a: nat, b: nat): nat {
    if a < b then b else a
  }

  /** For any two records with one identifier there is such a record. */
  ghost predicate StoodInFor(records: seq<Record>) {
    forall i: nat, j: nat :: i < |records| && j < |records| && records[i].id == records[j].id ==>
      HasStandIn(records, i, j)
  }

  ghost predicate HasStandIn(records: seq<Record>, i: nat, j: nat)
    requires i < |records| && j < |records|
  {
    exists k: nat :: k < |records| && StandsIn(records, i, j, k)
  }

  /** Every query's intersection is the filtered records. */
  ghost predicate AlwaysFilters(s: Live, records: seq<Record>)
    requires LevelsOk(s.shot.levels, s.shot.readers)
  {
    forall tokens: seq<Key>, from: nat, to: nat, id: Key :: IsQuery(tokens, from, to) ==>
      (InAll(s, tokens, from, to, id) <==> SomeMatches(records, tokens, from, to, id))
  }

  /**
   Intersecting the tokens' scans is filtering the records, for every query, exactly when any two records
   with one identifier have one that stands in for both: so in particular when no identifier was ingested
   twice, or only the same record again.
   */
  lemma IntersectionFiltersExactly(s: Live, records: seq<Record>)
    requires LiveInv(s) && TermsAre(s.hist, records) && AllIndexable(records)
    ensures LevelsOk(s.shot.levels, s.shot.readers)
    ensures AlwaysFilters(s, records) <==> StoodInFor(records)
  {
    hide LiveInv, TermsAre, LevelsOk, AllIndexable, InAll, SomeMatches, HasStandIn;
    NoTermScan(s, records);
    if AlwaysFilters(s, records) {
      forall i: nat, j: nat | i < |records| && j < |records| && records[i].id == records[j].id
        ensures HasStandIn(records, i, j)
      {
        NeedsStandIn(s, records, i, j);
      }
    }
    if StoodInFor(records) {
      forall tokens: seq<Key>, from: nat, to: nat, id: Key | IsQuery(tokens, from, to)
        ensures InAll(s, tokens, from, to, id) <==> SomeMatches(records, tokens, from, to, id)
      {
        InAllIsFound(s, records, tokens, from, to, id);
        FoundMatches(records, tokens, from, to, id);
      }
    }
  }

  lemma NoTermScan(s: Live, records: seq<Record>)
    requires LiveInv(s)
    ensures LevelsOk(s.shot.levels, s.shot.readers)
  {
    ScanAgreesWithView(s, [], []);
  }

  lemma FoundMatches(records: seq<Record>, tokens: seq<Key>, from: nat, to: nat, id: Key)
    requires StoodInFor(records) && tokens != []
    ensures Found(records, tokens, from, to, id) <==> SomeMatches(records, tokens, from, to, id)
  {
    if Found(records, tokens, from, to, id) {
      var k := FoundTogether(records, tokens, from, to, id);
    }
  }

  /** One stand-in after the other: a record with all the tokens. */
  lemma {:induction false} FoundTogether(records: seq<Record>, tokens: seq<Key>, from: nat, to: nat, id: Key)
    returns (k: nat)
    requires StoodInFor(records) && tokens != [] && Found(records, tokens, from, to, id)
    ensures k < |records| && records[k].id == id && Matches(records[k], tokens, from, to)
  {
    hide StoodInFor, HasStandIn;
    var n := |tokens| - 1;
    assert tokens == tokens[..n] + [tokens[n]] && TokenAt(records, tokens[n], from, to, id);
    var j: nat :| j < |records| && records[j].id == id && tokens[n] in records[j].tokens
      && InTime(records[j], from, to);
    k := j;
    if n > 0 {
      var i := FoundTogether(records, tokens[..n], from, to, id);
      k := StandIn(records, i, j);
    }
  }

  lemma StandIn(records: seq<Record>, i: nat, j: nat) returns (k: nat)
    requires StoodInFor(records) && i < |records| && j < |records| && records[i].id == records[j].id
    ensures k < |records| && StandsIn(records, i, j, k)
  {
    hide StandsIn;
    assert HasStandIn(records, i, j);
    k :| k < |records| && StandsIn(records, i, j, k);
  }

  /** The query for the tokens of both records, from the earlier to the later. */
  lemma NeedsStandIn(s: Live, records: seq<Record>, i: nat, j: nat)
    requires LiveInv(s) && TermsAre(s.hist, records) && AllIndexable(records) && LevelsOk(s.shot.levels, s.shot.readers)
    requires AlwaysFilters(s, records) && i < |records| && j < |records| && records[i].id == records[j].id
    ensures HasStandIn(records, i, j)
  {
    hide LiveInv, TermsAre, LevelsOk, InAll, Tokens;
    var a, b := records[i], records[j];
    assert Indexable(a) && Indexable(b);
    if a.tokens == [] && b.tokens == [] {
      assert StandsIn(records, i, j, i);
    } else {
      var from, to := Least(a.timestamp, b.timestamp), Greatest(a.timestamp, b.timestamp);
      var tokens := Joined(a.tokens, b.tokens);
      JoinedAre(a.tokens, b.tokens);
      InAllIsFound(s, records, tokens, from, to, a.id);
      EachInOne(records, i, j);
      assert SomeMatches(records, tokens, from, to, a.id);
      var k: nat :| k < |records| && records[k].id == a.id && Matches(records[k], tokens, from, to);
      assert StandsIn(records, i, j, k);
    }
  }

  lemma EachInOne(records: seq<Record>, i: nat, j: nat)
    requires i < |records| && j < |records| && records[i].id == records[j].id
    ensures var a, b := records[i], records[j];
      Found(records, Joined(a.tokens, b.tokens), Least(a.timestamp, b.timestamp), Greatest(a.timestamp, b.timestamp),
        a.id)
  {
    JoinedMembers(records[i].tokens, records[j].tokens);
  }

  /** a and what b adds to it. */
  function Joined(a: seq<Key>, b: seq<Key>): seq<Key> {
    if b == [] then a
    else
      var r := Joined(a, b[..|b| - 1]);
      if b[|b| - 1] in r then r else r + [b[|b| - 1]]
  }

  lemma {:induction false} JoinedMembers(a: seq<Key>, b: seq<Key>)
    ensures forall t :: t in Joined(a, b) <==> t in a || t in b
  {
    if b != [] {
      var n := |b| - 1;
      JoinedMembers(a, b[..n]);
      assert b == b[..n] + [b[n]];
    }
  }

  lemma {:induction false} JoinedAre(a: seq<Key>, b: seq<Key>)
    requires Tokens(a) && Tokens(b)
    ensures Tokens(Joined(a, b)) && (forall t :: t in Joined(a, b) <==> t in a || t in b)
  {
    JoinedMembers(a, b);
    if b != [] {
      var n := |b| - 1;
      assert forall t :: t in b[..n] ==> t in b;
      JoinedAre(a, b[..n]);
      var r := Joined(a, b[..n]);
      assert forall i :: 0 <= i < |r| ==> r[i] in r;
    }
  }

  ghost predicate UniqueIds(records: seq<Record>) {
    forall i, j :: 0 <= i < j < |records| ==> records[i].id != records[j].id
  }

  /** The case the record identifiers are meant for. */
  lemma UniqueStandIn(records: seq<Record>)
    requires UniqueIds(records)
    ensures StoodInFor(records)
  {
    forall i: nat, j: nat | i < |records| && j < |records| && records[i].id == records[j].id
      ensures HasStandIn(records, i, j)
    {
      assert i == j;
      assert StandsIn(records, i, j, i);
    }
  }

  // ----- The failure, concretely -----

  /** The bytes of a string of ASCII characters. */
  function Ascii(s: string): (r: Key)
    ensures |r| == |s|
  {
    seq(|s|, i requires 0 <= i < |s| => s[i] as int % 256)
  }

  lemma PrefixesSpelled()
    ensures DOC == Ascii("doc:") && TIME == Ascii("idx:time:") && LEVEL == Ascii("idx:lvl:")
    ensures SERVICE == Ascii("idx:svc:") && TERM == Ascii("term:") && FIELD == Ascii("fld:") && [COLON] == Ascii(":")
  {
  }

  const FIRST_JSON := "{\"id\":\"1\",\"timestamp\":1,\"level\":\"INFO\",\"service\":\"default\",\"message\":\"error\"}"
  const SECOND_JSON := "{\"id\":\"1\",\"timestamp\":2,\"level\":\"INFO\",\"service\":\"default\",\"message\":\"retry\"}"

  /** "error", "retry" */
  const TOKEN_A: Key := [101, 114, 114, 111, 114]
  const TOKEN_B: Key := [114, 101, 116, 114, 121]

  const FIRST_RECORD := Record([49], 1, Ascii("INFO"), Ascii("default"), Ascii(FIRST_JSON), [TOKEN_A], [])
  const SECOND_RECORD := Record([49], 2, Ascii("INFO"), Ascii("default"), Ascii(SECOND_JSON), [TOKEN_B], [])

  const STOP_WORDS := {
    "a", "an", "and", "are", "as", "at", "be", "by", "for", "from", "has", "he", "in", "is", "it", "its", "of", "on",
    "or", "that", "the", "to", "was", "were", "will", "with"
  }

  predicate Spells(t: Key, word: string) {
    |t| == |word| && forall i :: 0 <= i < |t| ==> t[i] == word[i] as int
  }

  /** A token that Tokenize does not leave out. */
  predicate Tokenized(t: Key) {
    IsToken(t) && 2 <= |t| <= 64 && forall w :: w in STOP_WORDS ==> !Spells(t, w)
  }

  /** A record as Validate leaves it: nothing empty that it fills in. */
  predicate Validated(r: Record) {
    && r.id != [] && r.timestamp > 0 && r.level != [] && r.service != [] && r.json != []
    && forall t :: t in r.tokens ==> Tokenized(t)
  }

  /** One identifier, ingested twice: each record has one token, neither has both. */
  function TwiceIngested(): seq<Record> {
    [FIRST_RECORD, SECOND_RECORD]
  }

  lemma StopWordsShort()
    ensures forall w :: w in STOP_WORDS ==> |w| < 5
  {
  }

  lemma TokensDiffer()
    ensures TOKEN_A != TOKEN_B && Tokenized(TOKEN_A) && Tokenized(TOKEN_B)
  {
    StopWordsShort();
    assert TOKEN_A[0] != TOKEN_B[0];
  }

  lemma TwiceIngestedIndexable()
    ensures AllIndexable(TwiceIngested()) && IsQuery([TOKEN_A, TOKEN_B], 0, 9)
    ensures Validated(FIRST_RECORD) && Validated(SECOND_RECORD)
  {
    TokensDiffer();
    hide Ascii, Spells;
  }

  lemma TwiceIngestedFound()
    ensures Found(TwiceIngested(), [TOKEN_A, TOKEN_B], 0, 9, [49])
    ensures forall id: Key :: !SomeMatches(TwiceIngested(), [TOKEN_A, TOKEN_B], 0, 9, id)
  {
    TokensDiffer();
    hide Ascii;
    var records := TwiceIngested();
    assert records[0].id == [49] && TOKEN_A in records[0].tokens && InTime(records[0], 0, 9);
    assert records[1].id == [49] && TOKEN_B in records[1].tokens && InTime(records[1], 0, 9);
    assert TOKEN_A in [TOKEN_A, TOKEN_B] && TOKEN_B in [TOKEN_A, TOKEN_B];
  }

  /** In any state that has indexed them, the query for both tokens finds the identifier, which no record matches. */
  lemma TwiceIngestedMatchesBoth(s: Live)
    requires LiveInv(s) && TermsAre(s.hist, TwiceIngested())
    ensures LevelsOk(s.shot.levels, s.shot.readers) && InAll(s, [TOKEN_A, TOKEN_B], 0, 9, [49])
    ensures forall id: Key :: !SomeMatches(TwiceIngested(), [TOKEN_A, TOKEN_B], 0, 9, id)
    ensures !AlwaysFilters(s, TwiceIngested()) && !StoodInFor(TwiceIngested())
    ensures Validated(FIRST_RECORD) && Validated(SECOND_RECORD)
  {
    hide Validated, LiveInv, TermsAre, LevelsOk, InAll, TwiceIngested, SomeMatches, Found, StoodInFor, AllIndexable;
    TwiceIngestedIndexable();
    TwiceIngestedFound();
    InAllIsFound(s, TwiceIngested(), [TOKEN_A, TOKEN_B], 0, 9, [49]);
    IntersectionFiltersExactly(s, TwiceIngested());
  }

  /** On an engine that has no term indexed, the two are ingested, and the query answered. */
  method IngestTwice(search: SearchEngine) returns (r: Result<seq<Key>>)
    requires search.db.Coupled() && Resting(search.db.live) && Saveable(search.db.live) && !search.db.closed
    requires TermsAre(search.db.live.hist, [])
    modifies search.db.Footprint()
    ensures search.db.Coupled() && Resting(search.db.live) && TermsAre(search.db.live.hist, TwiceIngested())
    ensures r.Ok? && [49] in r.value
    ensures forall id: Key :: !SomeMatches(TwiceIngested(), [TOKEN_A, TOKEN_B], 0, 9, id)
  {
    hide LiveInv, Engine.Coupled, TermsAre, Storable, IngestedAs, LevelsOk, InAll, SomeMatches;
    BothStorable();
    RestingIsRunnable(search.db.live);
    ghost var hist := search.db.live.hist;
    var err := search.Ingest(FIRST_RECORD);
    ghost var a :| IngestedAs(a, FIRST_RECORD) && search.db.live.hist == hist + a;
    IngestIndexes(hist, [], a, FIRST_RECORD);
    assert [] + [FIRST_RECORD] == [FIRST_RECORD];
    err := search.Ingest(SECOND_RECORD);
    ghost var b :| IngestedAs(b, SECOND_RECORD) && search.db.live.hist == hist + a + b;
    IngestIndexes(hist + a, [FIRST_RECORD], b, SECOND_RECORD);
    assert [FIRST_RECORD] + [SECOND_RECORD] == TwiceIngested();
    TwiceIngestedMatchesBoth(search.db.live);
    r := search.IntersectTerms([TOKEN_A, TOKEN_B], 0, 9);
  }

  /** Such an engine is the one opened on an empty directory. */
  method IngestTwiceFromNothing(cfg: LevelConfig, blockSize: nat, memTableSize: int) returns (r: Result<seq<Key>>)
    requires cfg.maxLevels == MAX_LEVELS
    ensures r.Ok? && [49] in r.value
    ensures forall id: Key :: !SomeMatches(TwiceIngested(), [TOKEN_A, TOKEN_B], 0, 9, id)
  {
    hide LiveInv, Engine.Coupled, TermsAre, SomeMatches, Resting, Inv, CanStart;
    var manifest := new Compactor.Manifest();
    var comp := new Compactor.Compactor(manifest, cfg, 0);
    NewManifest(manifest.levels);
    var db := Opener.Open(manifest, comp, blockSize, memTableSize, map[], [], [], []);
    var search := new SearchEngine(db);
    NothingIndexed();
    r := IngestTwice(search);
  }

  lemma NewManifest(levels: LevelLists)
    requires |levels| == ROWS && forall l :: 0 <= l < ROWS ==> levels[l] == []
    ensures Disk(levels, map[], 1, []) == EMPTY_DISK && Inv(INITIAL) && CanStart(EMPTY_DISK, [])
  {
    Safety.InitialInv();
    NothingToOrder(EMPTY_DISK);
  }

  lemma NothingIndexed()
    ensures TermsAre([], [])
  {
  }

  lemma BothStorable()
    ensures Storable(FIRST_RECORD) && Storable(SECOND_RECORD)
  {
    hide Ascii;
    KeysShort(FIRST_RECORD, TOKEN_A);
    KeysShort(SECOND_RECORD, TOKEN_B);
  }

  /** The keys of a record with one token and no field are as long as their parts. */
  lemma KeysShort(r: Record, token: Key)
    requires r.tokens == [token] && r.fields == [] && |r.json| < 1000
    requires |r.id| + |r.level| + |r.service| + |token| < 1000 && r.timestamp < TWO63
    ensures Storable(r)
  {
    hide Decimal.Padded;
    StampLength(r.timestamp);
    assert r.tokens[1..] == [];
    assert TermKeys(r.tokens, r) == [TermKey(token, r.timestamp, r.id)];
  }

  lemma StampLength(t: nat)
    requires t < TWO63
    ensures |Decimal.Padded(t, TIME_DIGITS)| == TIME_DIGITS
  {
    TimeFits(t);
    Decimal.WidthWithin(t, TIME_DIGITS);
  }

  class SearchEngine {
    const db: Engine

    constructor (db: Engine)
      ensures this.db == db
    {
      this.db := db;
    }

    /**
     One put per key of the record; only the first one's error is looked at. With nothing running beside
     it, the record's tokens are indexed from now on.
     */
    method Ingest(r: Record) returns (err: Option<string>)
      requires db.Coupled() && Runnable(db.live)
      modifies db.Footprint()
      ensures db.Coupled() && Runnable(db.live) && err == if db.closed then Some(CLOSED) else None
      ensures db.closed == old(db.closed) && fresh(db.Footprint() - old(db.Footprint()))
      ensures err.Some? ==> db.live.hist == old(db.live.hist)
      ensures err.None? ==> exists added :: IngestedAs(added, r) && db.live.hist == old(db.live.hist) + added
      ensures err.None? ==> Visible(LastOf(db.live.hist, DOC + r.id)) == Some(r.json)
      ensures err.None? ==> forall records :: IndexIs(old(db.live.hist), records) ==>
        IndexIs(db.live.hist, records + [r])
      ensures Resting(old(db.live)) && Saveable(old(db.live)) && Storable(r) ==> Resting(db.live) && Saveable(db.live)
    {
      hide LiveInv, Engine.Coupled, KeysFor, Entry.Storable, PutsFor, Resting, Saveable, Runnable, Storable, IndexIs,
           LastOf;
      var keys := KeysFor(r);
      ghost var before := db.live.hist;
      ghost var added: seq<Entry> := [];
      NoPuts(r.json);
      assert before + [] == before && keys[..0] == [];
      for i := 0 to |keys|
        invariant db.Coupled() && Runnable(db.live)
        invariant Resting(old(db.live)) && Saveable(old(db.live)) && Storable(r) ==>
          Resting(db.live) && Saveable(db.live)
        invariant db.closed == old(db.closed) && (i > 0 ==> !db.closed) && |added| == i
        invariant fresh(db.Footprint() - old(db.Footprint()))
        invariant db.live.hist == before + added && PutsFor(added, keys[..i], r.json)
      {
        var refused;
        ghost var e;
        refused, e := PutKey(r, keys, i, before, added);
        if refused.Some? {
          return refused;
        }
        added := added + [e];
      }
      assert keys[..|keys|] == keys;
      Ingested(before, added, r);
      return None;
    }

    lemma Ingested(hist: seq<Entry>, added: seq<Entry>, r: Record)
      requires IngestedAs(added, r)
      ensures Visible(LastOf(hist + added, DOC + r.id)) == Some(r.json)
      ensures forall records :: IndexIs(hist, records) ==> IndexIs(hist + added, records + [r])
    {
      hide IngestedAs, IndexIs, LastOf;
      LastOfConcat(hist, added, DOC + r.id);
      IngestedValue(added, r, DOC + r.id);
      forall records | IndexIs(hist, records)
        ensures IndexIs(hist + added, records + [r])
      {
        IngestKeepsIndex(hist, records, added, r);
      }
    }

    /** IngestBatch: the records one after the other; a closed engine takes none. */
    method IngestBatch(records: seq<Record>) returns (count: nat, err: Option<string>)
      requires db.Coupled() && Runnable(db.live)
      modifies db.Footprint()
      ensures db.Coupled() && Runnable(db.live)
      ensures if records != [] && old(db.closed) then count == 0 && err == Some(CLOSED)
              else count == |records| && err == None
      ensures forall before :: IndexIs(old(db.live.hist), before) ==> IndexIs(db.live.hist, before + records[..count])
    {
      hide Engine.Coupled, Runnable, IndexIs, IngestedAs, LastOf, LiveInv, Resting, Saveable, Storable;
      ghost var start := db.live.hist;
      count := 0;
      assert forall before: seq<Record> :: before + records[..0] == before;
      while count < |records|
        invariant count <= |records| && db.Coupled() && Runnable(db.live) && db.closed == old(db.closed)
        invariant count > 0 ==> !db.closed
        invariant fresh(db.Footprint() - old(db.Footprint()))
        invariant forall before :: IndexIs(start, before) ==> IndexIs(db.live.hist, before + records[..count])
      {
        err := Ingest(records[count]);
        if err.Some? {
          return;
        }
        assert forall before: seq<Record> ::
          before + records[..count + 1] == before + records[..count] + [records[count]];
        count := count + 1;
      }
      return count, None;
    }

    /** GetByID, up to the parsing of what it finds: the document of the last record with the identifier. */
    method GetByID(id: Key) returns (r: Result<seq<byte>>)
      requires db.Coupled() && LiveInv(db.live)
      ensures db.closed ==> r == Err(CLOSED)
      ensures !db.closed ==> forall records :: IndexIs(db.live.hist, records) ==>
        r == if LastWith(records, id).Some? then Ok(LastWith(records, id).value) else Err(NOT_FOUND)
    {
      hide Engine.Coupled, LiveInv, IndexIs, LastOf, MapOf;
      r := db.Get(DOC + id);
      MapIsLastWrites(db.live.hist, DOC + id);
      assert DOC + id != [];
      forall records | IndexIs(db.live.hist, records)
        ensures Visible(LastOf(db.live.hist, DOC + id)) == LastWith(records, id)
      {
        StoredDocument(records, id);
        IndexReads(db.live.hist, records, DOC + id);
      }
    }

    lemma IndexReads(hist: seq<Entry>, records: seq<Record>, key: Key)
      requires IndexIs(hist, records) && OfIndex(key)
      ensures Visible(LastOf(hist, key)) == Stored(records, key)
    {
    }

    lemma NoPuts(json: seq<byte>)
      ensures PutsFor([], [], json)
    {
    }

    /** One of the puts, at whatever time it is. */
    method PutKey(r: Record, keys: seq<Key>, i: nat, ghost before: seq<Entry>, ghost added: seq<Entry>)
      returns (refused: Option<string>, ghost e: Entry)
      requires db.Coupled() && Runnable(db.live) && keys == KeysFor(r) && i < |keys|
      requires db.live.hist == before + added && PutsFor(added, keys[..i], r.json)
      modifies db.Footprint()
      ensures db.Coupled() && Runnable(db.live)
      ensures Resting(old(db.live)) && Saveable(old(db.live)) && Storable(r) ==> Resting(db.live) && Saveable(db.live)
      ensures db.closed == old(db.closed) && refused == if db.closed then Some(CLOSED) else None
      ensures fresh(db.Footprint() - old(db.Footprint()))
      ensures refused.Some? ==> db.live.hist == old(db.live.hist)
      ensures refused.None? ==> db.live.hist == before + (added + [e]) && PutsFor(added + [e], keys[..i + 1], r.json)
    {
      hide LiveInv, Engine.Coupled, KeysFor, Entry.Storable, PutsFor;
      var now: int64 := *;
      var value := if i == 0 then r.json else [];
      e := PutEntry(keys[i], value, now);
      if Storable(r) {
        KeysStorable(r, keys[i], value, now);
      }
      KeyThere(r, keys[i]);
      OneMorePut(added, keys, i, r.json, now);
      refused := db.Put(keys[i], value, now);
      assert before + added + [e] == before + (added + [e]);
    }

    /** Reads the index from startKey to endKey and takes the identifiers off the keys. */
    method ScanPrefixIDs(startKey: Key, endKey: Key) returns (r: Result<seq<Key>>)
      requires db.Coupled() && LiveInv(db.live) && endKey != []
      ensures LevelsOk(db.live.shot.levels, db.live.shot.readers)
      ensures if db.closed then r == Err(CLOSED) else r == Ok(IdsOf(ScanPairs(db.live, startKey, endKey)))
    {
      hide LiveInv, Engine.Coupled, LevelsOk, ScanPairs, MergedIterator.Inv, Split, LastPart, Less;
      var scan := db.Scan(startKey, endKey);
      if scan.Err? {
        return Err(scan.error);
      }
      var ids := CollectIDs(scan.value, endKey);
      return Ok(ids);
    }

    method CollectIDs(iter: MergedIterator, endKey: Key) returns (ids: seq<Key>)
      requires iter.Inv() && endKey != []
      modifies iter, iter.iters
      ensures ids == IdsOf(UpTo(old(iter.Remaining()), endKey))
    {
      hide MergedIterator.Inv, MergedIterator.Remaining, Split, LastPart, Less, IdsOf;
      NoIds();
      ghost var pairs := UpTo(iter.Remaining(), endKey);
      ghost var done: seq<Entry> := [];
      ids := [];
      var seen: set<Key> := {};
      while iter.valid
        invariant iter.Inv() && pairs == done + UpTo(iter.Remaining(), endKey)
        invariant ids == IdsOf(done) && seen == set id | id in ids
        decreases |iter.Remaining()|
      {
        Compactor.ShownEntry(iter);
        var k := iter.current.value.key;
        if Less(endKey, k) {
          break;
        }
        TakeOne(done, iter.Remaining(), endKey);
        done := done + [iter.current.value];
        var parts := Split(k);
        if |parts| >= 4 {
          var id := LastPart(k);
          if id !in seen {
            seen := seen + {id};
            ids := ids + [id];
          }
        }
        iter.Next();
      }
      if !iter.valid {
        Compactor.NothingRemains(iter);
      } else {
        Compactor.ShownEntry(iter);
      }
      assert pairs == done;
    }

    lemma NoIds()
      ensures IdsOf([]) == []
    {
    }

    lemma TakeOne(done: seq<Entry>, rest: seq<Entry>, endKey: Key)
      requires rest != [] && !Less(endKey, rest[0].key)
      ensures done + UpTo(rest, endKey) == (done + [rest[0]]) + UpTo(rest[1..], endKey)
      ensures IdsOf(done + [rest[0]]) ==
        if |Split(rest[0].key)| >= 4 && LastPart(rest[0].key) !in IdsOf(done)
        then IdsOf(done) + [LastPart(rest[0].key)] else IdsOf(done)
    {
      hide Split, LastPart, Less, IdsOf;
      assert (done + [rest[0]]) + UpTo(rest[1..], endKey) == done + ([rest[0]] + UpTo(rest[1..], endKey));
      IdsOfOneMore(done, rest[0]);
    }

    lemma IdsOfOneMore(done: seq<Entry>, e: Entry)
      ensures IdsOf(done + [e]) ==
        if |Split(e.key)| >= 4 && LastPart(e.key) !in IdsOf(done) then IdsOf(done) + [LastPart(e.key)] else IdsOf(done)
    {
      hide Split, LastPart;
      assert (done + [e])[..|done|] == done;
    }

    /** The identifiers found under every token, each once, in no particular order. */
    method IntersectTerms(tokens: seq<Key>, from: nat, to: nat) returns (r: Result<seq<Key>>)
      requires db.Coupled() && LiveInv(db.live)
      ensures LevelsOk(db.live.shot.levels, db.live.shot.readers)
      ensures tokens == [] ==> r == Ok([])
      ensures tokens != [] && db.closed ==> r == Err(CLOSED)
      ensures tokens != [] && !db.closed ==> r.Ok? && NoRepeats(r.value)
      ensures tokens != [] && !db.closed ==> forall id :: id in r.value <==> InAll(db.live, tokens, from, to, id)
    {
      hide LiveInv, Engine.Coupled, TermIds, StartKey, EndKey;
      db.TablesReadable();
      hide LevelsOk;
      if |tokens| == 0 {
        return Ok([]);
      }
      var ids := TermScan(tokens[0], from, to);
      if ids.Err? {
        return ids;
      }
      var common := set id | id in ids.value;
      var i := 1;
      assert tokens[..1] == [tokens[0]];
      while i < |tokens|
        invariant 1 <= i <= |tokens|
        invariant forall id :: id in common <==> InAll(db.live, tokens[..i], from, to, id)
      {
        var more := TermScan(tokens[i], from, to);
        assert tokens[..i + 1] == tokens[..i] + [tokens[i]];
        common := set id | id in common && id in more.value;
        i := i + 1;
        if common == {} {
          break;
        }
      }
      assert i == |tokens| ==> tokens[..i] == tokens;
      assert forall id :: InAll(db.live, tokens, from, to, id) ==> InAll(db.live, tokens[..i], from, to, id);
      var result := AsList(common);
      return Ok(result);
    }

    method TermScan(token: Key, from: nat, to: nat) returns (r: Result<seq<Key>>)
      requires db.Coupled() && LiveInv(db.live)
      ensures LevelsOk(db.live.shot.levels, db.live.shot.readers)
      ensures if db.closed then r == Err(CLOSED) else r == Ok(TermIds(db.live, token, from, to))
    {
      hide LiveInv, Engine.Coupled, LevelsOk, ScanPairs, IdsOf;
      EndKeyNotEmpty(token, to);
      r := ScanPrefixIDs(StartKey(token, from), EndKey(token, to));
    }

    /** The members of a set, in the arbitrary order in which a Go map is walked. */
    method AsList(ids: set<Key>) returns (r: seq<Key>)
      ensures (forall id :: id in r <==> id in ids) && NoRepeats(r)
    {
      r := [];
      var left := ids;
      while left != {}
        invariant left <= ids && NoRepeats(r) && (forall id :: id in r <==> id in ids && id !in left)
        decreases |left|
      {
        var id :| id in left;
        assert forall i :: 0 <= i < |r| ==> r[i] in r;
        r := r + [id];
        left := left - {id};
      }
    }
  }

  ghost predicate NoRepeats(ids: seq<Key>) {
    forall i, j :: 0 <= i < j < |ids| ==> ids[i] != ids[j]
  }
}
