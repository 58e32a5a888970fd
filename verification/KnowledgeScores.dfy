/** What the keyword search counts as a word, what a match is worth, and the order of its answers. */
module KnowledgeScores {
  import opened Prelude
  import opened StableSort
  import opened KnowledgeSearch

  // Words.

  /** A letter or a digit, in either case. */
  predicate WordChar(c: char) {
    'a' <= c <= 'z' || 'A' <= c <= 'Z' || '0' <= c <= '9'
  }

  /** `w` in lower case. */
  predicate Lowered(w: string, lower: string) {
    && |lower| == |w|
    && forall i :: 0 <= i < |w| ==> LowersTo(w[i], lower[i])
  }

  /** The small letter of a capital; anything else is itself. */
  predicate LowersTo(c: char, lower: char) {
    if 'A' <= c <= 'Z' then 'a' <= lower <= 'z' && lower - 'a' == c - 'A' else lower == c
  }

  lemma WordCharsLower(c: char)
    requires WordChar(c)
    ensures LowersTo(c, Lower(c)) && Alnum(Lower(c))
  {
  }

  lemma {:induction false} ScanSplits(a: string, c: char, b: string, word: string)
    requires !WordChar(c)
    ensures Scan(a + [c] + b, word) == Scan(a, word) + Tokenize(b)
  {
    var all := a + [c] + b;
    if a == "" {
      assert all[0] == c && all[1..] == b;
    } else {
      assert all[0] == a[0] && all[1..] == a[1..] + [c] + b;
      if Alnum(Lower(a[0])) {
        ScanSplits(a[1..], c, b, word + [Lower(a[0])]);
      } else {
        ScanSplits(a[1..], c, b, "");
        assert Flush(word) + (Scan(a[1..], "") + Tokenize(b)) == Flush(word) + Scan(a[1..], "") + Tokenize(b);
      }
    }
  }

  /** Whatever is neither a letter nor a digit parts the words around it and is no word itself. */
  lemma SeparatorsSplit(a: string, c: char, b: string)
    requires !WordChar(c)
    ensures Tokenize(a + [c] + b) == Tokenize(a) + Tokenize(b) && Tokenize("") == []
  {
    ScanSplits(a, c, b, "");
  }

  lemma {:induction false} ScanLowers(w: string, word: string) returns (lower: string)
    requires forall c :: c in w ==> WordChar(c)
    ensures Lowered(w, lower) && Scan(w, word) == Flush(word + lower)
  {
    if w == "" {
      lower := "";
      assert word + lower == word;
    } else {
      assert w[0] in w && forall c :: c in w[1..] ==> c in w;
      WordCharsLower(w[0]);
      var rest := ScanLowers(w[1..], word + [Lower(w[0])]);
      lower := [Lower(w[0])] + rest;
      assert word + lower == word + [Lower(w[0])] + rest;
      forall i | 0 <= i < |w| ensures LowersTo(w[i], lower[i]) {
        if i > 0 {
          assert LowersTo(w[1..][i - 1], rest[i - 1]);
        }
      }
    }
  }

  /** A run of letters and digits is one word, in lower case. */
  lemma RunsAreWords(w: string) returns (lower: string)
    requires w != "" && forall c :: c in w ==> WordChar(c)
    ensures Lowered(w, lower) && Tokenize(w) == [lower]
  {
    lower := ScanLowers(w, "");
    assert "" + lower == lower;
  }

  // Scores.

  lemma {:induction false} TokenizeAllAppends(texts: seq<string>, text: string)
    ensures TokenizeAll(texts + [text]) == TokenizeAll(texts) + Tokenize(text)
  {
    if texts == [] {
      assert texts + [text] == [text] && [text][1..] == [];
      assert TokenizeAll([text]) == Tokenize(text) + TokenizeAll([]);
    } else {
      assert (texts + [text])[0] == texts[0] && (texts + [text])[1..] == texts[1..] + [text];
      TokenizeAllAppends(texts[1..], text);
    }
  }

  lemma OneWordMore(text: string, w: string)
    requires Word(w)
    ensures Tokenize(text + " " + w) == Tokenize(text) + [w] && Tokenize(w) == [w]
  {
    TokenizeJoined([w]);
    SeparatorsSplit(text, ' ', w);
  }

  lemma {:induction false} EmptyTexts(tokens: seq<string>)
    ensures Pairs(tokens, Tokenize("")) == 0 && Pairs(tokens, TokenizeAll([])) == 0
  {
    NoPairs(tokens);
  }

  /** A word more in the title is worth 10 for each time the query has it, in the tags 6 and in the body 2; an
      article without text scores nothing. */
  lemma MatchesAreWorth(tokens: seq<string>, a: Article, w: string)
    requires Word(w)
    ensures Score(tokens, a.(title := a.title + " " + w)) == Score(tokens, a) + 10 * Occurrences(tokens, w)
    ensures Score(tokens, a.(tags := a.tags + [w])) == Score(tokens, a) + 6 * Occurrences(tokens, w)
    ensures Score(tokens, a.(body := a.body + " " + w)) == Score(tokens, a) + 2 * Occurrences(tokens, w)
    ensures a.title == "" && a.tags == [] && a.body == "" ==> Score(tokens, a) == 0
  {
    OneWordMore(a.title, w);
    OneWordMore(a.body, w);
    TokenizeAllAppends(a.tags, w);
    PairsAppend(tokens, Tokenize(a.title), w);
    PairsAppend(tokens, Tokenize(a.body), w);
    PairsAppend(tokens, TokenizeAll(a.tags), w);
    EmptyTexts(tokens);
  }

  // The order of the answers.

  /** Of elements with the key of `k`, the earlier have the smaller places. */
  predicate TiesInPlace(xs: seq<Keyed<nat>>, k: Keyed<nat>) {
    var ties := Ties<nat>(xs, k);
    forall i, j :: 0 <= i < j < |ties| ==> ties[i].item < ties[j].item
  }

  lemma {:induction false} TieMembers(xs: seq<Keyed<nat>>, k: Keyed<nat>, y: Keyed<nat>)
    ensures y in Ties<nat>(xs, k) <==> y in xs && SameKey<nat>(y, k)
  {
    if xs != [] {
      TieMembers(xs[..|xs| - 1], k, y);
      assert xs == xs[..|xs| - 1] + [xs[|xs| - 1]];
    }
  }

  lemma {:induction false} OrderOfTies(xs: seq<Keyed<nat>>, i: nat, j: nat)
    requires i < j < |xs| && SameKey<nat>(xs[i], xs[j]) && TiesInPlace(xs, xs[j])
    ensures xs[i].item < xs[j].item
  {
    var last := |xs| - 1;
    var init := xs[..last];
    var ties := Ties<nat>(xs, xs[j]);
    assert Ties<nat>(init, xs[j]) == if SameKey<nat>(xs[last], xs[j]) then ties[..|ties| - 1] else ties;
    if j == last {
      TieMembers(init, xs[j], xs[i]);
      assert init[i] == xs[i];
      var a :| 0 <= a < |Ties<nat>(init, xs[j])| && Ties<nat>(init, xs[j])[a] == xs[i];
      assert ties[a] == xs[i] && ties[|ties| - 1] == xs[j];
    } else {
      OrderOfTies(init, i, j);
    }
  }

  lemma {:induction false} PositiveInPlace(keys: seq<Keyed<nat>>, k: Keyed<nat>)
    requires Numbered(keys)
    ensures TiesInPlace(Positive(keys), k)
    ensures forall i :: 0 <= i < |Ties<nat>(Positive(keys), k)| ==> Ties<nat>(Positive(keys), k)[i].item < |keys|
  {
    if keys != [] {
      var init, last := keys[..|keys| - 1], keys[|keys| - 1];
      PositiveInPlace(init, k);
      if last.major > 0 {
        OneTieMore(Positive(init), last, k);
      } else {
        assert Positive(keys) == Positive(init);
      }
    }
  }

  lemma OneTieMore(xs: seq<Keyed<nat>>, x: Keyed<nat>, k: Keyed<nat>)
    requires TiesInPlace(xs, k) && forall i :: 0 <= i < |Ties<nat>(xs, k)| ==> Ties<nat>(xs, k)[i].item < x.item
    ensures TiesInPlace(xs + [x], k)
    ensures forall i :: 0 <= i < |Ties<nat>(xs + [x], k)| ==> Ties<nat>(xs + [x], k)[i].item <= x.item
  {
    assert (xs + [x])[..|xs|] == xs;
    assert Ties<nat>(xs + [x], k) == Ties<nat>(xs, k) + if SameKey<nat>(x, k) then [x] else [];
  }

  /** How much of the answers is kept: a negative limit drops that many from their end. */
  function Kept(matched: nat, limit: int): nat {
    if limit >= 0 then (if limit < matched then limit else matched)
    else if matched + limit < 0 then 0 else matched + limit
  }

  lemma SliceKeeps<T>(xs: seq<T>, limit: int)
    ensures Kept(|xs|, limit) <= |xs| && Slice(xs, limit) == xs[..Kept(|xs|, limit)]
  {
  }

  lemma RankIsACut(articles: seq<Article>, query: string, limit: int)
    requires Tokenize(query) != []
    ensures var sorted := Sort<nat>(Positive(Scores(Tokenize(query), articles)));
            Kept(|sorted|, limit) <= |sorted| && Rank(articles, query, limit) == sorted[..Kept(|sorted|, limit)]
  {
    SliceKeeps(Sort<nat>(Positive(Scores(Tokenize(query), articles))), limit);
  }

  lemma SortedInPlace(keys: seq<Keyed<nat>>, i: nat, j: nat)
    requires Numbered(keys) && i < j < |Sort<nat>(Positive(keys))|
    ensures var r := Sort<nat>(Positive(keys));
            || r[i].major > r[j].major || (r[i].major == r[j].major && r[i].minor > r[j].minor)
            || (r[i].major == r[j].major && r[i].minor == r[j].minor && r[i].item < r[j].item)
  {
    var r := Sort<nat>(Positive(keys));
    SortDescends<nat>(Positive(keys), i, j);
    if SameKey<nat>(r[i], r[j]) {
      SortKeepsTies<nat>(Positive(keys), r[j]);
      PositiveInPlace(keys, r[j]);
      OrderOfTies(r, i, j);
    }
  }

  /** Answers come by score, the higher first; of equal scores the more recent first; of those equal too, in the
      order the articles were given. */
  lemma AnswersAreOrdered(articles: seq<Article>, query: string, limit: int, i: nat, j: nat)
    requires i < j < |Rank(articles, query, limit)|
    ensures var r := Rank(articles, query, limit);
            && r[i].item < |articles| && r[j].item < |articles|
            && var a, b := articles[r[i].item], articles[r[j].item];
            var tokens := Tokenize(query);
            || Score(tokens, a) > Score(tokens, b)
            || (Score(tokens, a) == Score(tokens, b) && a.updatedAt > b.updatedAt)
            || (Score(tokens, a) == Score(tokens, b) && a.updatedAt == b.updatedAt && r[i].item < r[j].item)
  {
    var keys := Scores(Tokenize(query), articles);
    RankIsACut(articles, query, limit);
    SortedInPlace(keys, i, j);
    AnswersAreScored(articles, query, limit, i);
    AnswersAreScored(articles, query, limit, j);
  }

  /** An answer stands for an article that matches, under its own score. */
  lemma AnswersAreScored(articles: seq<Article>, query: string, limit: int, i: nat)
    requires i < |Rank(articles, query, limit)|
    ensures var r := Rank(articles, query, limit)[i];
            && r.item < |articles| && r == Keyed(Score(Tokenize(query), articles[r.item]), articles[r.item].updatedAt, r.item)
            && r.major > 0
  {
    var keys := Scores(Tokenize(query), articles);
    RankIsACut(articles, query, limit);
    SortPermutes(Positive(keys));
    PositiveExactly(keys);
    var r := Rank(articles, query, limit)[i];
    assert r in multiset(Sort<nat>(Positive(keys)));
    assert r in Positive(keys) && r in keys;
  }

  /** As many answers as articles match, within the limit. */
  lemma AnswersAreAsMany(articles: seq<Article>, query: string, limit: int)
    ensures |Rank(articles, query, limit)| == Kept(Matched(Scores(Tokenize(query), articles)), limit)
  {
    var keys := Scores(Tokenize(query), articles);
    if Tokenize(query) == [] {
      forall i | 0 <= i < |keys| ensures keys[i].major == 0 {
        EmptyQueryScoresNothing(articles[i]);
      }
      NothingMatched(keys);
    } else {
      RankIsACut(articles, query, limit);
      PositiveExactly(keys);
      SortPermutes(Positive(keys));
      assert |multiset(Sort<nat>(Positive(keys)))| == |multiset(Positive(keys))|;
    }
  }
}
