/** The messages of the swarm and the shapes generation data takes in them (common/protocol.py, and the
    encoding and decoding lines of node/generation.py). */
module Protocol {
  import opened Prelude
  import opened Consensus

  datatype Body =
    | Heartbeat
    | Hello
    | Bye
    | GenStart(roundId: string, participants: seq<NodeId>, prompt: string, genConfig: map<string, int>)
    | GenDone(roundId: string)
    | Commit(roundId: string, syncSeq: nat, positions: seq<nat>, tokens: seq<nat>, confidences: seq<real>)
    | DisputeScore(roundId: string, syncSeq: nat, scores: map<string, map<string, real>>)

  datatype Envelope = Envelope(nodeId: NodeId, body: Body)

  // ---------------------------------------------------------------- commits as three parallel lists

  /** Three parallel lists that list a commit map, in any order of its keys. */
  ghost predicate IsFlattening(m: CommitMap, positions: seq<nat>, tokens: seq<nat>, confidences: seq<real>) {
    && |positions| == |tokens| == |confidences|
    && (forall i :: 0 <= i < |positions| ==>
          positions[i] in m && m[positions[i]] == Proposal(tokens[i], confidences[i]))
    && (forall p :: p in m ==> p in positions)
  }

  method Flatten(m: CommitMap) returns (positions: seq<nat>, tokens: seq<nat>, confidences: seq<real>)
    ensures IsFlattening(m, positions, tokens, confidences)
    ensures |positions| == |tokens| == |confidences| == |m|
    ensures forall p :: p in m ==>
              exists i :: 0 <= i < |positions| && positions[i] == p && tokens[i] == m[p].token
                          && confidences[i] == m[p].confidence
  {
    positions, tokens, confidences := [], [], [];
    var todo := m.Keys;
    while todo != {}
      invariant todo <= m.Keys
      invariant |positions| == |tokens| == |confidences| == |m.Keys| - |todo|
      invariant forall i :: 0 <= i < |positions| ==>
                  positions[i] in m && m[positions[i]] == Proposal(tokens[i], confidences[i])
      invariant forall p :: p in m && p !in todo ==> p in positions
    {
      var p :| p in todo;
      positions, tokens, confidences := positions + [p], tokens + [m[p].token], confidences + [m[p].confidence];
      todo := todo - {p};
    }
  }

  lemma {:induction false} FlatteningExists(m: CommitMap)
    returns (positions: seq<nat>, tokens: seq<nat>, confidences: seq<real>)
    ensures IsFlattening(m, positions, tokens, confidences)
    decreases |m|
  {
    positions, tokens, confidences := [], [], [];
    if m.Keys != {} {
      var p := Pick(m.Keys);
      var rest := m - {p};
      assert rest.Keys == m.Keys - {p};
      assert |m| == |m.Keys| && |rest| == |rest.Keys|;
      positions, tokens, confidences := FlatteningExists(rest);
      positions, tokens, confidences := positions + [p], tokens + [m[p].token], confidences + [m[p].confidence];
    }
  }

  /** `zip` stops at the shortest list, and a later entry for a position replaces an earlier one. */
  function Zip(positions: seq<nat>, tokens: seq<nat>, confidences: seq<real>, n: nat): CommitMap
    requires n <= |positions| && n <= |tokens| && n <= |confidences|
  {
    if n == 0 then map[] else
      Zip(positions, tokens, confidences, n - 1)[positions[n - 1] := Proposal(tokens[n - 1], confidences[n - 1])]
  }

  function Shortest(positions: seq<nat>, tokens: seq<nat>, confidences: seq<real>): (n: nat)
    ensures n <= |positions| && n <= |tokens| && n <= |confidences|
  {
    Min(|positions|, Min(|tokens|, |confidences|))
  }

  function Unflattened(positions: seq<nat>, tokens: seq<nat>, confidences: seq<real>): CommitMap {
    Zip(positions, tokens, confidences, Shortest(positions, tokens, confidences))
  }

  lemma {:induction false} ZipIs(positions: seq<nat>, tokens: seq<nat>, confidences: seq<real>, n: nat)
    requires n <= |positions| && n <= |tokens| && n <= |confidences|
    ensures var z := Zip(positions, tokens, confidences, n);
            && (forall p :: p in z ==> exists i :: 0 <= i < n && positions[i] == p)
            && (forall i :: 0 <= i < n ==> positions[i] in z)
            && (forall i :: 0 <= i < n && (forall k :: i < k < n ==> positions[k] != positions[i]) ==>
                  z[positions[i]].token == tokens[i] && z[positions[i]].confidence == confidences[i])
  {
    if n > 0 {
      ZipIs(positions, tokens, confidences, n - 1);
      assert positions[n - 1] == positions[n - 1];
    }
  }

  /** As far as all three lists go, every position listed, with the last token and confidence listed for it. */
  lemma UnflattenedIs(positions: seq<nat>, tokens: seq<nat>, confidences: seq<real>)
    ensures forall p :: p in Unflattened(positions, tokens, confidences) <==>
              exists i :: 0 <= i < |positions| && i < |tokens| && i < |confidences| && positions[i] == p
    ensures forall i :: 0 <= i < |positions| && i < |tokens| && i < |confidences| ==>
              positions[i] in Unflattened(positions, tokens, confidences)
    ensures forall i :: 0 <= i < |positions| && i < |tokens| && i < |confidences| ==>
              (forall k :: i < k < |positions| && k < |tokens| && k < |confidences| ==>
                 positions[k] != positions[i]) ==>
                Unflattened(positions, tokens, confidences)[positions[i]] == Proposal(tokens[i], confidences[i])
  {
    ZipIs(positions, tokens, confidences, Shortest(positions, tokens, confidences));
    hide Zip;
  }

  method Unflatten(positions: seq<nat>, tokens: seq<nat>, confidences: seq<real>) returns (m: CommitMap)
    ensures m == Unflattened(positions, tokens, confidences)
  {
    m := map[];
    var i := 0;
    while i < |positions| && i < |tokens| && i < |confidences|
      invariant i <= Shortest(positions, tokens, confidences)
      invariant m == Zip(positions, tokens, confidences, i)
    {
      m := m[positions[i] := Proposal(tokens[i], confidences[i])];
      i := i + 1;
    }
  }

  lemma {:induction false} ZipAgrees(m: CommitMap, positions: seq<nat>, tokens: seq<nat>, confidences: seq<real>,
      n: nat)
    requires IsFlattening(m, positions, tokens, confidences) && n <= |positions|
    ensures var z := Zip(positions, tokens, confidences, n);
            && (forall p :: p in z ==> p in m && z[p] == m[p])
            && (forall i :: 0 <= i < n ==> positions[i] in z)
  {
    if n > 0 {
      ZipAgrees(m, positions, tokens, confidences, n - 1);
    }
  }

  /** A receiver reads back exactly the commits that were sent, whatever order they were listed in. */
  lemma CommitRoundTrip(m: CommitMap, positions: seq<nat>, tokens: seq<nat>, confidences: seq<real>)
    requires IsFlattening(m, positions, tokens, confidences)
    ensures Unflattened(positions, tokens, confidences) == m
  {
    ZipAgrees(m, positions, tokens, confidences, |positions|);
    var z := Unflattened(positions, tokens, confidences);
    forall p: nat | p in m
      ensures p in z
    {
      var i :| 0 <= i < |positions| && positions[i] == p;
    }
    assert z.Keys == m.Keys;
  }

  // ---------------------------------------------------------------- numbers as map keys

  function Digit(d: nat): char
    requires d < 10
  {
    (d + '0' as int) as char
  }

  /** `str(n)` */
  function Str(n: nat): (s: string)
    ensures |s| >= 1
  {
    if n < 10 then [Digit(n)] else Str(n / 10) + [Digit(n % 10)]
  }

  function DigitValue(c: char): Option<nat> {
    if '0' <= c <= '9' then Some(c as int - '0' as int) else None
  }

  function ParseDigits(s: string): Option<nat> {
    if s == [] then Some(0) else
      match (ParseDigits(s[..|s| - 1]), DigitValue(s[|s| - 1]))
      case (Some(high), Some(low)) => Some(10 * high + low)
      case _ => None
  }

  /** `int(s)` on a key made of digits; any other key raises. */
  function ParseKey(s: string): Option<nat> {
    if s == [] then None else ParseDigits(s)
  }

  /** The keys that can be read are the non-empty strings of decimal digits. */
  lemma {:induction false} DigitsRead(s: string)
    ensures ParseDigits(s).Some? <==> forall c :: c in s ==> '0' <= c <= '9'
  {
    if s != [] {
      var high, low := s[..|s| - 1], s[|s| - 1];
      DigitsRead(high);
      assert s == high + [low];
      if ParseDigits(s).Some? {
        forall c | c in s
          ensures '0' <= c <= '9'
        {
          assert c in high || c == low;
        }
      } else if forall c :: c in s ==> '0' <= c <= '9' {
        assert low in s && forall c :: c in high ==> c in s;
      }
    }
  }

  /** And they are read as decimal numbers. */
  lemma KeyIs(s: string, c: char)
    ensures ParseKey([]) == None
    ensures ParseKey(s + [c]).Some? <==> '0' <= c <= '9' && forall d :: d in s ==> '0' <= d <= '9'
    ensures ParseKey(s + [c]).Some? ==>
              ParseKey(s + [c]).value == (if s == [] then 0 else 10 * ParseKey(s).value) + (c as int - '0' as int)
  {
    var t := s + [c];
    assert t[..|t| - 1] == s && t[|t| - 1] == c;
    DigitsRead(s);
    DigitsRead(t);
    if ParseKey(t).Some? {
      assert forall d :: d in s ==> d in t;
      assert c in t;
    }
  }

  lemma DigitRoundTrip(d: nat)
    requires d < 10
    ensures DigitValue(Digit(d)) == Some(d)
  {
  }

  lemma LastDigit(s: string, high: nat, d: nat)
    requires d < 10 && ParseDigits(s) == Some(high)
    ensures ParseDigits(s + [Digit(d)]) == Some(10 * high + d)
  {
    DigitRoundTrip(d);
    var t := s + [Digit(d)];
    assert t[..|t| - 1] == s && t[|t| - 1] == Digit(d);
  }

  /** `int(str(n)) == n` */
  lemma {:induction false} ParseStr(n: nat)
    ensures ParseKey(Str(n)) == Some(n)
    decreases n
  {
    if n < 10 {
      LastDigit([], 0, n);
      assert [] + [Digit(n)] == Str(n);
    } else {
      ParseStr(n / 10);
      LastDigit(Str(n / 10), n / 10, n % 10);
    }
  }

  /** The rendering has decimal digits only and no leading zero. */
  lemma {:induction false} StrIs(n: nat)
    ensures n < 10 ==> Str(n) == ["0123456789"[n]]
    ensures n > 0 ==> Str(n)[0] != '0'
    ensures forall c :: c in Str(n) ==> '0' <= c <= '9'
  {
    if n >= 10 {
      StrIs(n / 10);
      assert Str(n)[0] == Str(n / 10)[0];
    }
  }

  lemma StrInjective(a: nat, b: nat)
    requires Str(a) == Str(b)
    ensures a == b
  {
    ParseStr(a);
    ParseStr(b);
  }

  // ---------------------------------------------------------------- scores under string keys

  lemma StrKeys()
    ensures forall a: nat, b: nat :: Str(a) == Str(b) ==> a == b
  {
    forall a: nat, b: nat | Str(a) == Str(b)
      ensures a == b
    {
      StrInjective(a, b);
    }
  }

  function EncodeTokens(m: map<nat, real>): map<string, real> {
    StrKeys();
    map t | t in m :: Str(t) := m[t]
  }

  function EncodeScores(m: ScoreMap): map<string, map<string, real>> {
    StrKeys();
    map p | p in m :: Str(p) := EncodeTokens(m[p])
  }

  lemma EncodedTokens(m: map<nat, real>)
    ensures forall t :: t in m ==> Str(t) in EncodeTokens(m)
    ensures forall k :: k in EncodeTokens(m) ==>
              ParseKey(k).Some? && ParseKey(k).value in m && EncodeTokens(m)[k] == m[ParseKey(k).value]
  {
    StrKeys();
    hide Str, ParseKey;
    forall k | k in EncodeTokens(m)
      ensures ParseKey(k).Some? && ParseKey(k).value in m && EncodeTokens(m)[k] == m[ParseKey(k).value]
    {
      var t: nat :| t in m && k == Str(t);
      ParseStr(t);
    }
  }

  lemma EncodedScores(m: ScoreMap)
    ensures forall p :: p in m ==> Str(p) in EncodeScores(m)
    ensures forall k :: k in EncodeScores(m) ==>
              ParseKey(k).Some? && ParseKey(k).value in m && EncodeScores(m)[k] == EncodeTokens(m[ParseKey(k).value])
  {
    StrKeys();
    hide EncodeTokens, Str, ParseKey;
    forall k | k in EncodeScores(m)
      ensures ParseKey(k).Some? && ParseKey(k).value in m && EncodeScores(m)[k] == EncodeTokens(m[ParseKey(k).value])
    {
      var p: nat :| p in m && k == Str(p);
      ParseStr(p);
    }
  }

  /** What decoding one map of token scores may yield: with colliding keys any of them may be kept. */
  ghost predicate DecodesTokens(wire: map<string, real>, m: map<nat, real>) {
    && (forall k :: k in wire ==> ParseKey(k).Some? && ParseKey(k).value in m)
    && (forall t :: t in m ==> exists k :: k in wire && ParseKey(k) == Some(t) && m[t] == wire[k])
  }

  ghost predicate DecodesScores(wire: map<string, map<string, real>>, m: ScoreMap) {
    && (forall k :: k in wire ==> ParseKey(k).Some? && ParseKey(k).value in m)
    && (forall p :: p in m ==> exists k :: k in wire && ParseKey(k) == Some(p) && DecodesTokens(wire[k], m[p]))
  }

  /** No key collides among keys that `str` made, so what was encoded is what is decoded. */
  lemma TokensRoundTrip(m: map<nat, real>, r: map<nat, real>)
    requires DecodesTokens(EncodeTokens(m), r)
    ensures r == m
  {
    EncodedTokens(m);
    hide Str, ParseKey, EncodeTokens;
    forall t: nat | t in m
      ensures t in r
    {
      ParseStr(t);
      assert Str(t) in EncodeTokens(m);
    }
    assert forall t :: t in r ==> t in m && r[t] == m[t];
  }

  /** What a node reads from a report that another node encoded: the report itself. */
  lemma ScoresRoundTrip(m: ScoreMap, r: ScoreMap)
    requires DecodesScores(EncodeScores(m), r)
    ensures r == m
  {
    EncodedScores(m);
    hide Str, ParseKey, EncodeTokens, EncodeScores, DecodesTokens;
    forall p: nat | p in m
      ensures p in r
    {
      ParseStr(p);
      assert Str(p) in EncodeScores(m);
    }
    forall p: nat | p in r
      ensures p in m && r[p] == m[p]
    {
      var k :| k in EncodeScores(m) && ParseKey(k) == Some(p) && DecodesTokens(EncodeScores(m)[k], r[p]);
      TokensRoundTrip(m[p], r[p]);
    }
  }

  /** And a report can always be read back. */
  lemma ScoresReadable(m: ScoreMap)
    ensures DecodesScores(EncodeScores(m), m)
  {
    EncodedScores(m);
    hide Str, ParseKey, EncodeTokens, EncodeScores;
    forall p: nat | p in m
      ensures exists k :: k in EncodeScores(m) && ParseKey(k) == Some(p) && DecodesTokens(EncodeScores(m)[k], m[p])
    {
      ParseStr(p);
      assert Str(p) in EncodeScores(m);
      TokensReadable(m[p]);
    }
  }

  lemma TokensReadable(m: map<nat, real>)
    ensures DecodesTokens(EncodeTokens(m), m)
  {
    EncodedTokens(m);
    hide Str, ParseKey, EncodeTokens;
    forall t: nat | t in m
      ensures exists k :: k in EncodeTokens(m) && ParseKey(k) == Some(t) && m[t] == EncodeTokens(m)[k]
    {
      ParseStr(t);
      assert Str(t) in EncodeTokens(m);
    }
  }

  method DecodeTokens(wire: map<string, real>) returns (r: Result<map<nat, real>>)
    ensures r.Raised? <==> exists k :: k in wire && ParseKey(k) == None
    ensures r.Ok? ==> DecodesTokens(wire, r.value)
  {
    hide ParseKey;
    var m: map<nat, real> := map[];
    var todo := wire.Keys;
    while todo != {}
      invariant todo <= wire.Keys
      invariant forall k :: k in wire && k !in todo ==> ParseKey(k).Some? && ParseKey(k).value in m
      invariant forall t :: t in m ==> exists k :: k in wire && ParseKey(k) == Some(t) && m[t] == wire[k]
    {
      var k :| k in todo;
      var token := ParseKey(k);
      if token == None {
        return Raised;
      }
      m := m[token.value := wire[k]];
      todo := todo - {k};
    }
    r := Ok(m);
  }

  /** `{int(pos): {int(tok): score ...} ...}`: raises exactly when some key is not a number. */
  method DecodeScores(wire: map<string, map<string, real>>) returns (r: Result<ScoreMap>)
    ensures r.Raised? <==>
              exists k :: k in wire && (ParseKey(k) == None || exists t :: t in wire[k] && ParseKey(t) == None)
    ensures r.Ok? ==> DecodesScores(wire, r.value)
  {
    hide ParseKey, DecodesTokens;
    var m: ScoreMap := map[];
    var todo := wire.Keys;
    while todo != {}
      invariant todo <= wire.Keys
      invariant forall k :: k in wire && k !in todo ==>
                  ParseKey(k).Some? && ParseKey(k).value in m && forall t :: t in wire[k] ==> ParseKey(t) != None
      invariant forall p :: p in m ==> exists k :: k in wire && ParseKey(k) == Some(p) && DecodesTokens(wire[k], m[p])
    {
      var k :| k in todo;
      var pos := ParseKey(k);
      if pos == None {
        return Raised;
      }
      var tokens := DecodeTokens(wire[k]);
      if tokens == Raised {
        return Raised;
      }
      m := m[pos.value := tokens.value];
      todo := todo - {k};
    }
    r := Ok(m);
  }

  /** No encoded report raises. */
  lemma EncodedReportsDecode(m: ScoreMap)
    ensures forall k :: k in EncodeScores(m) ==> ParseKey(k) != None && forall t :: t in EncodeScores(m)[k] ==>
        ParseKey(t) != None
  {
    EncodedScores(m);
    hide EncodeScores, EncodeTokens, ParseKey;
    forall k | k in EncodeScores(m)
      ensures ParseKey(k) != None && forall t :: t in EncodeScores(m)[k] ==> ParseKey(t) != None
    {
      EncodedTokens(m[ParseKey(k).value]);
    }
  }
}
