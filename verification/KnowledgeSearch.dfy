/** Keyword search over knowledge articles, for ASCII text: tokens, match counts, ranking, query building. */
module KnowledgeSearch {
  import opened Prelude
  import opened StableSort

  // Tokens.

  function Lower(c: char): char {
    if 'A' <= c <= 'Z' then (c as int + 32) as char else c
  }

  /** A lower-case letter or a digit. */
  predicate Alnum(c: char) {
    'a' <= c <= 'z' || '0' <= c <= '9'
  }

  predicate Word(w: string) {
    w != "" && forall c :: c in w ==> Alnum(c)
  }

  predicate Words(ws: seq<string>) {
    forall w :: w in ws ==> Word(w)
  }

  function Flush(word: string): seq<string> {
    if word == "" then [] else [word]
  }

  /** Reads `text` behind the started word `word`: anything but a letter or digit ends a word. */
  function Scan(text: string, word: string): seq<string> {
    if text == "" then Flush(word)
    else if Alnum(Lower(text[0])) then Scan(text[1..], word + [Lower(text[0])])
    else Flush(word) + Scan(text[1..], "")
  }

  function Tokenize(text: string): seq<string> {
    Scan(text, "")
  }

  function TokenizeAll(texts: seq<string>): seq<string> {
    if texts == [] then [] else Tokenize(texts[0]) + TokenizeAll(texts[1..])
  }

  lemma {:induction false} ScanGivesWords(text: string, word: string)
    requires forall c :: c in word ==> Alnum(c)
    ensures Words(Scan(text, word))
  {
    if text != "" {
      if Alnum(Lower(text[0])) {
        ScanGivesWords(text[1..], word + [Lower(text[0])]);
      } else {
        ScanGivesWords(text[1..], "");
      }
    }
  }

  lemma {:induction false} ScanWord(w: string, rest: string, word: string)
    requires forall c :: c in w ==> Alnum(c)
    ensures Scan(w + rest, word) == Scan(rest, word + w)
  {
    if w == "" {
      assert w + rest == rest && word + w == word;
    } else {
      assert w[0] in w && Lower(w[0]) == w[0];
      assert (w + rest)[1..] == w[1..] + rest;
      assert forall c :: c in w[1..] ==> c in w;
      ScanWord(w[1..], rest, word + [w[0]]);
      assert word + [w[0]] + w[1..] == word + w;
    }
  }

  function Join(parts: seq<string>): string {
    if parts == [] then "" else if |parts| == 1 then parts[0] else parts[0] + " " + Join(parts[1..])
  }

  /** Words joined by spaces are read back as they were. */
  lemma {:induction false} TokenizeJoined(ws: seq<string>)
    requires Words(ws)
    ensures Tokenize(Join(ws)) == ws
  {
    if ws != [] {
      var w := ws[0];
      assert Word(w) && "" + w == w;
      if |ws| == 1 {
        assert w + "" == w;
        ScanWord(w, "", "");
      } else {
        var rest := " " + Join(ws[1..]);
        assert Join(ws) == w + rest;
        ScanWord(w, rest, "");
        assert rest[1..] == Join(ws[1..]);
        assert forall v :: v in ws[1..] ==> v in ws;
        TokenizeJoined(ws[1..]);
      }
    }
  }

  /** The tokens that stand where they first occur. */
  function FirstOccurrences(ts: seq<string>): (r: seq<string>)
    ensures forall t :: t in r <==> t in ts
    ensures Distinct(r)
  {
    if ts == [] then []
    else
      var earlier, last := FirstOccurrences(ts[..|ts| - 1]), ts[|ts| - 1];
      assert ts == ts[..|ts| - 1] + [last];
      if last in ts[..|ts| - 1] then earlier else earlier + [last]
  }

  lemma {:induction false} DistinctStays(ts: seq<string>)
    requires Distinct(ts)
    ensures FirstOccurrences(ts) == ts
  {
    if ts != [] {
      DistinctStays(ts[..|ts| - 1]);
      assert ts == ts[..|ts| - 1] + [ts[|ts| - 1]];
    }
  }

  /** `buildKnowledgeSearchQuery`. */
  function BuildQuery(parts: seq<string>): string {
    Join(FirstOccurrences(TokenizeAll(parts)))
  }

  lemma {:induction false} TokenizeAllGivesWords(texts: seq<string>)
    ensures Words(TokenizeAll(texts))
  {
    if texts != [] {
      ScanGivesWords(texts[0], "");
      TokenizeAllGivesWords(texts[1..]);
    }
  }

  /** Tokenizing a built query gives the distinct tokens of its parts, in the order they first occur, and
      building a query from a built query changes nothing. */
  lemma BuiltQueriesAreCanonical(parts: seq<string>)
    ensures Tokenize(BuildQuery(parts)) == FirstOccurrences(TokenizeAll(parts))
    ensures BuildQuery([BuildQuery(parts)]) == BuildQuery(parts)
  {
    TokenizeAllGivesWords(parts);
    var ts := FirstOccurrences(TokenizeAll(parts));
    TokenizeJoined(ts);
    var again := [BuildQuery(parts)];
    assert TokenizeAll(again) == ts + TokenizeAll(again[1..]) == ts;
    DistinctStays(ts);
  }

  // Match counts.

  /** How often `t` occurs in `ts`. */
  function Occurrences(ts: seq<string>, t: string): nat {
    if ts == [] then 0 else Occurrences(ts[..|ts| - 1], t) + if ts[|ts| - 1] == t then 1 else 0
  }

  /** The number of pairs of a token and an equal haystack token. */
  function Pairs(tokens: seq<string>, haystack: seq<string>): nat {
    if tokens == [] then 0 else Pairs(tokens[..|tokens| - 1], haystack) + Occurrences(haystack, tokens[|tokens| - 1])
  }

  lemma {:induction false} NoPairs(tokens: seq<string>)
    ensures Pairs(tokens, []) == 0
  {
    if tokens != [] {
      NoPairs(tokens[..|tokens| - 1]);
    }
  }

  method CountTokenMatches(tokens: seq<string>, haystack: seq<string>) returns (total: nat)
    ensures total == Pairs(tokens, haystack)
  {
    if tokens == [] || haystack == [] {
      NoPairs(tokens);
      return 0;
    }
    var counts: map<string, nat> := map[];
    var i := 0;
    while i < |haystack|
      invariant 0 <= i <= |haystack|
      invariant forall t :: (if t in counts then counts[t] else 0) == Occurrences(haystack[..i], t)
    {
      var t := haystack[i];
      counts := counts[t := (if t in counts then counts[t] else 0) + 1];
      assert haystack[..i + 1][..i] == haystack[..i];
      i := i + 1;
    }
    assert haystack[..i] == haystack;
    total := 0;
    var j := 0;
    while j < |tokens|
      invariant 0 <= j <= |tokens|
      invariant total == Pairs(tokens[..j], haystack)
    {
      assert tokens[..j + 1][..j] == tokens[..j];
      total := total + if tokens[j] in counts then counts[tokens[j]] else 0;
      j := j + 1;
    }
    assert tokens[..j] == tokens;
  }

  /** Matching counts pairs, so it does not matter which side is the haystack. */
  lemma {:induction false} PairsSymmetric(xs: seq<string>, ys: seq<string>)
    ensures Pairs(xs, ys) == Pairs(ys, xs)
  {
    if xs == [] {
      NoPairs(ys);
    } else {
      PairsSymmetric(xs[..|xs| - 1], ys);
      PairsAppend(ys, xs[..|xs| - 1], xs[|xs| - 1]);
      assert xs == xs[..|xs| - 1] + [xs[|xs| - 1]];
    }
  }

  lemma {:induction false} PairsAppend(ys: seq<string>, xs: seq<string>, x: string)
    ensures Pairs(ys, xs + [x]) == Pairs(ys, xs) + Occurrences(ys, x)
  {
    if ys != [] {
      PairsAppend(ys[..|ys| - 1], xs, x);
      assert (xs + [x])[..|xs|] == xs;
    }
  }

  // Ranking.

  datatype Article = Article(id: string, title: string, body: string, tags: seq<string>, updatedAt: int)

  function Score(tokens: seq<string>, a: Article): nat {
    10 * Pairs(tokens, Tokenize(a.title)) + 6 * Pairs(tokens, TokenizeAll(a.tags)) + 2 * Pairs(tokens, Tokenize(a.body))
  }

  /** Each article's place among those given, under its score and its recency. */
  function Scores(tokens: seq<string>, articles: seq<Article>): (r: seq<Keyed<nat>>)
    ensures |r| == |articles|
    ensures forall i :: 0 <= i < |articles| ==> r[i] == Keyed(Score(tokens, articles[i]), articles[i].updatedAt, i)
  {
    seq(|articles|, i requires 0 <= i < |articles| => Keyed(Score(tokens, articles[i]), articles[i].updatedAt, i))
  }

  /** Those that match at all, as given. */
  function Positive(keys: seq<Keyed<nat>>): seq<Keyed<nat>> {
    if keys == [] then []
    else Positive(keys[..|keys| - 1]) + if keys[|keys| - 1].major > 0 then [keys[|keys| - 1]] else []
  }

  /** `slice(0, limit)`: a negative limit counts from the end. */
  function Slice<T>(xs: seq<T>, limit: int): seq<T> {
    if limit >= 0 then Take(xs, limit)
    else if |xs| + limit < 0 then [] else xs[..|xs| + limit]
  }

  /** `rankKnowledgeArticles`, giving places. */
  function Rank(articles: seq<Article>, query: string, limit: int): seq<Keyed<nat>> {
    var tokens := Tokenize(query);
    if tokens == [] then [] else Slice(Sort(Positive(Scores(tokens, articles))), limit)
  }

  /** How many articles have a positive score. */
  function Matched(keys: seq<Keyed<nat>>): nat {
    if keys == [] then 0 else Matched(keys[..|keys| - 1]) + if keys[|keys| - 1].major > 0 then 1 else 0
  }

  predicate Numbered(keys: seq<Keyed<nat>>) {
    forall i :: 0 <= i < |keys| ==> keys[i].item == i
  }

  lemma {:induction false} PositiveExactly(keys: seq<Keyed<nat>>)
    requires Numbered(keys)
    ensures |Positive(keys)| == Matched(keys)
    ensures forall k :: k in Positive(keys) <==> k in keys && k.major > 0
    ensures Distinct(Positive(keys))
  {
    if keys != [] {
      var init, last := keys[..|keys| - 1], keys[|keys| - 1];
      PositiveExactly(init);
      assert keys == init + [last];
      assert forall k :: k in init ==> k.item < |init|;
    }
  }

  /** No tokens match nothing. */
  lemma EmptyQueryScoresNothing(a: Article)
    ensures Score([], a) == 0
  {
  }

  /** `r` is sorted by score, then recency; is as long as the limit and the number `matched` of matching
      articles allow; is made of matching articles, each once; and no matching article left out outranks one in it. */
  ghost predicate TopK(r: seq<Keyed<nat>>, keys: seq<Keyed<nat>>, matched: nat, limit: nat) {
    && Sorted(r)
    && |r| == (if limit < matched then limit else matched)
    && Distinct(r)
    && (forall k :: k in r ==> k in keys && k.major > 0)
    && (forall x, k :: x in keys && x.major > 0 && x !in r && k in r ==> Before(k, x))
  }

  lemma {:induction false} PrefixIsTopK(keys: seq<Keyed<nat>>, all: seq<Keyed<nat>>, sorted: seq<Keyed<nat>>, limit: nat)
    requires Distinct(all) && forall k :: k in all <==> k in keys && k.major > 0
    requires Sorted(sorted) && multiset(sorted) == multiset(all)
    ensures TopK(Take(sorted, limit), keys, |all|, limit)
  {
    TopOf(all, sorted, limit);
  }

  /** The ranking is a true top-`limit` of the scored articles. */
  lemma {:induction false} RankIsTopK(articles: seq<Article>, query: string, limit: nat)
    ensures var keys := Scores(Tokenize(query), articles);
            TopK(Rank(articles, query, limit), keys, Matched(keys), limit)
  {
    var keys := Scores(Tokenize(query), articles);
    if Tokenize(query) == [] {
      forall i | 0 <= i < |keys| ensures keys[i].major == 0 {
        EmptyQueryScoresNothing(articles[i]);
      }
      NothingMatched(keys);
    } else {
      PositiveExactly(keys);
      SortPermutes(Positive(keys));
      PrefixIsTopK(keys, Positive(keys), Sort(Positive(keys)), limit);
    }
  }

  lemma {:induction false} NothingMatched(keys: seq<Keyed<nat>>)
    requires forall i :: 0 <= i < |keys| ==> keys[i].major == 0
    ensures Matched(keys) == 0
  {
    if keys != [] {
      NothingMatched(keys[..|keys| - 1]);
    }
  }

  lemma TopOf(all: seq<Keyed<nat>>, sorted: seq<Keyed<nat>>, limit: nat)
    requires Sorted(sorted) && multiset(sorted) == multiset(all) && Distinct(all)
    ensures var r := Take(sorted, limit);
            && Sorted(r) && Distinct(r)
            && |r| == (if limit < |all| then limit else |all|)
            && (forall k :: k in r ==> k in all)
            && (forall x, k :: x in all && x !in r && k in r ==> Before(k, x))
  {
    var r := Take(sorted, limit);
    SameElements(all, sorted);
    forall x, k | x in all && x !in r && k in r ensures Before(k, x) {
      var i :| 0 <= i < |sorted| && sorted[i] == x;
      var j :| 0 <= j < |r| && r[j] == k;
      assert forall l :: 0 <= l < |r| ==> r[l] == sorted[l] && r[l] != x;
      assert i >= |r|;
    }
  }

  lemma SameElements(all: seq<Keyed<nat>>, sorted: seq<Keyed<nat>>)
    requires multiset(sorted) == multiset(all) && Distinct(all)
    ensures |sorted| == |all| && Distinct(sorted) && forall x :: x in sorted <==> x in all
  {
    assert |multiset(sorted)| == |multiset(all)|;
    forall x ensures x in sorted <==> x in all {
      assert x in multiset(sorted) <==> x in multiset(all);
    }
    forall i, j | 0 <= i < j < |sorted| ensures sorted[i] != sorted[j] {
      if sorted[i] == sorted[j] {
        CountTwice(sorted, i, j);
        CountOnce(all, sorted[i]);
      }
    }
  }

  lemma CountTwice(xs: seq<Keyed<nat>>, i: nat, j: nat)
    requires i < j < |xs| && xs[i] == xs[j]
    ensures multiset(xs)[xs[i]] >= 2
  {
    assert xs == xs[..j] + [xs[j]] + xs[j + 1..];
    assert xs[i] == xs[..j][i] && xs[i] in xs[..j];
  }

  lemma {:induction false} CountOnce(xs: seq<Keyed<nat>>, x: Keyed<nat>)
    requires Distinct(xs)
    ensures multiset(xs)[x] <= 1
  {
    if xs != [] {
      var init, last := xs[..|xs| - 1], xs[|xs| - 1];
      assert xs == init + [last];
      CountOnce(init, x);
      assert last !in init;
    }
  }
}
