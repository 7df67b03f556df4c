/**
 The content aggregator (`processContentAnalysis`): a caption tokenizer,
 keyword counts overall and per month, the share of each keyword in per
 cent, and the number of posts per owner.
 */
module Content {
  import opened Types
  import opened Counting

  // ---------------------------------------------------------------------
  // The caption tokenizer:
  //   caption.toLowerCase().replace(/[^\w\s]/g, '').split(/\s+/)
  //          .filter(word => word.length > 3)
  // ---------------------------------------------------------------------

  predicate IsUpper(c: char) { 'A' <= c <= 'Z' }

  /** `\w` of a regular expression without the `u` flag. */
  predicate IsWordChar(c: char)
  {
    'a' <= c <= 'z' || 'A' <= c <= 'Z' || '0' <= c <= '9' || c == '_'
  }

  /** `\s`: the white space and line terminator characters of ECMAScript. */
  predicate IsSpace(c: char)
  {
    var n := c as int;
    (9 <= n <= 13) || n == 32 || n == 0xA0 || n == 0x1680 || (0x2000 <= n <= 0x200A)
    || n == 0x2028 || n == 0x2029 || n == 0x202F || n == 0x205F || n == 0x3000 || n == 0xFEFF
  }

  /** A keyword character after lower-casing and stripping. */
  predicate IsKeywordChar(c: char)
  {
    'a' <= c <= 'z' || '0' <= c <= '9' || c == '_'
  }

  function LowerChar(c: char): char
  {
    if IsUpper(c) then (c as int + 32) as char else c
  }

  /** `toLowerCase`, for the ASCII letters. */
  function LowerCase(s: string): (r: string)
    ensures |r| == |s|
    ensures forall i :: 0 <= i < |s| ==> r[i] == LowerChar(s[i])
  {
    seq(|s|, i requires 0 <= i < |s| => LowerChar(s[i]))
  }

  /** `replace(/[^\w\s]/g, '')`: drops every character that is neither a word
      character nor white space. */
  function StripNonWord(s: string): string
  {
    if s == [] then []
    else
      var c := s[|s| - 1];
      StripNonWord(s[..|s| - 1]) + (if IsWordChar(c) || IsSpace(c) then [c] else [])
  }

  /** `replace` works character by character: stripping a concatenation
      strips each part, and a single character is kept exactly when it is a
      word character or white space. Together these fix the result, order
      and repeats included. */
  lemma {:induction false} StripNonWordAppend(a: string, b: string)
    ensures StripNonWord(a + b) == StripNonWord(a) + StripNonWord(b)
    decreases |b|
  {
    if b == [] {
      assert a + b == a;
    } else {
      var init := b[..|b| - 1];
      assert (a + b)[..|a + b| - 1] == a + init;
      StripNonWordAppend(a, init);
    }
  }

  /** Exactly the word and white-space characters of `s` survive. */
  lemma {:induction false} StripNonWordMembers(s: string)
    ensures forall c :: c in StripNonWord(s) <==> c in s && (IsWordChar(c) || IsSpace(c))
  {
    if s != [] {
      var init, last := s[..|s| - 1], s[|s| - 1];
      assert s == init + [last];
      StripNonWordMembers(init);
    }
  }

  lemma StripNonWordChar(c: char)
    ensures StripNonWord([c]) == if IsWordChar(c) || IsSpace(c) then [c] else []
  {
    assert [c][..0] == [];
  }

  /** `split(/\s+/)`: the pieces between maximal runs of white space. A
      leading or trailing run gives an empty first or last piece, and the
      empty string gives one empty piece. */
  function Split(s: string): (pieces: seq<string>)
    ensures |pieces| >= 1
  {
    if s == [] then [[]]
    else
      var init, c := s[..|s| - 1], s[|s| - 1];
      var prev := Split(init);
      if IsSpace(c) then
        if init != [] && IsSpace(init[|init| - 1]) then prev else prev + [[]]
      else
        prev[..|prev| - 1] + [prev[|prev| - 1] + [c]]
  }

  /** All pieces joined back together. */
  function Concat(pieces: seq<string>): string
  {
    if pieces == [] then [] else Concat(pieces[..|pieces| - 1]) + pieces[|pieces| - 1]
  }

  /** `s` without its white space. */
  function NonSpace(s: string): (r: string)
  {
    if s == [] then []
    else NonSpace(s[..|s| - 1]) + (if IsSpace(s[|s| - 1]) then [] else [s[|s| - 1]])
  }

  lemma {:induction false} ConcatSnocLast(pieces: seq<string>, c: char)
    requires |pieces| >= 1
    ensures Concat(pieces[..|pieces| - 1] + [pieces[|pieces| - 1] + [c]]) == Concat(pieces) + [c]
  {
    var init := pieces[..|pieces| - 1];
    assert (init + [pieces[|pieces| - 1] + [c]])[..|init|] == init;
  }

  lemma ConcatSnocEmpty(pieces: seq<string>)
    ensures Concat(pieces + [[]]) == Concat(pieces)
  {
    assert (pieces + [[]])[..|pieces|] == pieces;
  }

  /** Splitting loses exactly the white space: the pieces, joined, are the
      non-space characters of `s` in order, and no piece holds white space. */
  lemma {:induction false} SplitPieces(s: string)
    ensures Concat(Split(s)) == NonSpace(s)
    ensures forall p, c :: p in Split(s) && c in p ==> c in s && !IsSpace(c)
  {
    if s != [] {
      var init, c := s[..|s| - 1], s[|s| - 1];
      SplitPieces(init);
      var prev := Split(init);
      assert s == init + [c];
      if !IsSpace(c) {
        ConcatSnocLast(prev, c);
        var r := prev[..|prev| - 1] + [prev[|prev| - 1] + [c]];
        assert Split(s) == r;
        forall p, d | p in r && d in p ensures d in s && !IsSpace(d) {
          if p != prev[|prev| - 1] + [c] {
            assert p in prev;
          } else if d != c {
            assert d in prev[|prev| - 1];
          }
        }
      } else if !(init != [] && IsSpace(init[|init| - 1])) {
        ConcatSnocEmpty(prev);
      }
    } else {
      assert Split(s) == [[]];
    }
  }

  predicate StartsSpace(s: string) { s != [] && IsSpace(s[0]) }
  predicate EndsSpace(s: string) { s != [] && IsSpace(s[|s| - 1]) }

  /** How the pieces of two strings combine into the pieces of their
      concatenation: the last piece of the first runs on into the first
      piece of the second, unless the two white-space runs at the joint merge
      into one, when the empty pieces on either side of the joint collapse
      into one. */
  function Join(p: seq<string>, q: seq<string>, merged: bool): (r: seq<string>)
    requires |p| >= 1 && |q| >= 1
    ensures |r| == if merged then |p| + |q| - 2 else |p| + |q| - 1
  {
    if merged then p[..|p| - 1] + q[1..]
    else p[..|p| - 1] + [p[|p| - 1] + q[0]] + q[1..]
  }

  /** The last piece is empty exactly when `s` is empty or ends with
      white space, and a trailing run gives at least two pieces. */
  lemma {:induction false} SplitLast(s: string)
    ensures (Split(s)[|Split(s)| - 1] == []) == (s == [] || IsSpace(s[|s| - 1]))
    ensures EndsSpace(s) ==> |Split(s)| >= 2
  {
    if s != [] {
      var init, c := s[..|s| - 1], s[|s| - 1];
      var prev := Split(init);
      if IsSpace(c) && EndsSpace(init) {
        SplitLast(init);
        assert Split(s) == prev;
      } else if IsSpace(c) {
        assert Split(s) == prev + [[]];
      } else {
        assert Split(s) == prev[..|prev| - 1] + [prev[|prev| - 1] + [c]];
      }
    }
  }

  /** The first piece is empty exactly when `s` is empty or starts with
      white space, and a leading run gives at least two pieces. */
  lemma {:induction false} SplitFirst(s: string)
    ensures (Split(s)[0] == []) == (s == [] || IsSpace(s[0]))
    ensures StartsSpace(s) ==> |Split(s)| >= 2
  {
    if s != [] {
      var init, c := s[..|s| - 1], s[|s| - 1];
      var prev := Split(init);
      if init == [] {
        assert s == [c];
      } else {
        SplitFirst(init);
        assert init[0] == s[0];
        if IsSpace(c) {
          assert Split(s)[0] == prev[0] && |Split(s)| >= |prev|;
        } else {
          var r := prev[..|prev| - 1] + [prev[|prev| - 1] + [c]];
          assert Split(s) == r && |r| == |prev|;
          if |prev| >= 2 {
            assert r[0] == prev[0];
          }
        }
      }
    }
  }

  lemma SplitChar(c: char)
    ensures Split([c]) == if IsSpace(c) then [[], []] else [[c]]
  {
    assert [c][..0] == [];
    assert Split([]) == [[]];
    var e: string := [];
    assert e + [c] == [c];
    assert [e][..0] + [[c]] == [[c]];
  }

  /** One more character joins on as a one-character string would. */
  /** `Split` unfolded once on its last character. */
  lemma SplitUnfold(s: string, c: char)
    ensures var prev := Split(s);
      Split(s + [c]) == if IsSpace(c) then (if EndsSpace(s) then prev else prev + [[]])
                        else prev[..|prev| - 1] + [prev[|prev| - 1] + [c]]
  {
    var t := s + [c];
    assert t[..|t| - 1] == s && t[|t| - 1] == c;
  }

  /** The same step, as `Join` with the pieces of `[c]`. */
  lemma JoinOneChar(prev: seq<string>, c: char, endsSpace: bool)
    requires |prev| >= 1 && (endsSpace ==> |prev| >= 2 && prev[|prev| - 1] == [])
    ensures Join(prev, if IsSpace(c) then [[], []] else [[c]], endsSpace && IsSpace(c))
         == if IsSpace(c) then (if endsSpace then prev else prev + [[]])
            else prev[..|prev| - 1] + [prev[|prev| - 1] + [c]]
  {
    var init, last := prev[..|prev| - 1], prev[|prev| - 1];
    assert prev == init + [last];
    if IsSpace(c) && !endsSpace {
      assert last + [] == last;
    }
  }

  /** One more character joins on as a one-character string would. */
  lemma SplitSnoc(s: string, c: char)
    ensures Split(s + [c]) == Join(Split(s), Split([c]), EndsSpace(s) && IsSpace(c))
  {
    SplitUnfold(s, c);
    SplitChar(c);
    SplitLast(s);
    JoinOneChar(Split(s), c, EndsSpace(s));
  }

  lemma JoinOfTail(front: seq<string>, m: seq<string>, ql: string, r: seq<string>, y: bool)
    requires |r| >= 1
    ensures Join(front + m + [ql], r, y) == front + m + (if y then r[1..] else [ql + r[0]] + r[1..])
  {
    var j := front + m + [ql];
    assert j[..|j| - 1] == front + m && j[|j| - 1] == ql;
  }

  lemma JoinOfHead(p: seq<string>, q0: string, m: seq<string>, back: seq<string>, x: bool)
    requires |p| >= 1
    ensures Join(p, [q0] + m + back, x)
         == (if x then p[..|p| - 1] else p[..|p| - 1] + [p[|p| - 1] + q0]) + m + back
  {
    var k := [q0] + m + back;
    assert k[0] == q0 && k[1..] == m + back;
  }

  lemma JoinAssocLong(p: seq<string>, q: seq<string>, r: seq<string>, x: bool, y: bool)
    requires |p| >= 1 && |q| >= 2 && |r| >= 1
    ensures |Join(p, q, x)| >= 1 && |Join(q, r, y)| >= 1
    ensures Join(Join(p, q, x), r, y) == Join(p, Join(q, r, y), x)
  {
    var m, ql := q[1..|q| - 1], q[|q| - 1];
    var pi, pl := p[..|p| - 1], p[|p| - 1];
    assert q == [q[0]] + m + [ql];
    var front := if x then pi else pi + [pl + q[0]];
    var back := if y then r[1..] else [ql + r[0]] + r[1..];
    JoinOfHead(p, q[0], m, [ql], x);
    JoinOfTail([q[0]], m, ql, r, y);
    JoinOfTail(front, m, ql, r, y);
    JoinOfHead(p, q[0], m, back, x);
  }

  lemma JoinAssoc(p: seq<string>, q: seq<string>, r: seq<string>, x: bool, y: bool)
    requires |p| >= 1 && |q| >= 1 && |r| >= 1
    requires x ==> |p| >= 2 && |q| >= 2 && p[|p| - 1] == [] && q[0] == []
    requires y ==> |q| >= 2 && |r| >= 2 && q[|q| - 1] == [] && r[0] == []
    ensures |Join(p, q, x)| >= 1 && |Join(q, r, y)| >= 1
    ensures Join(Join(p, q, x), r, y) == Join(p, Join(q, r, y), x)
  {
    if |q| >= 2 {
      JoinAssocLong(p, q, r, x, y);
    } else {
      var pi, pl := p[..|p| - 1], p[|p| - 1];
      var k := [q[0] + r[0]] + r[1..];
      assert Join(q, r, y) == k && k[0] == q[0] + r[0] && k[1..] == r[1..];
      var j := pi + [pl + q[0]];
      assert Join(p, q, x) == j && j[..|j| - 1] == pi && j[|j| - 1] == pl + q[0];
      assert pl + q[0] + r[0] == pl + (q[0] + r[0]);
    }
  }

  /** The pieces of a concatenation are the pieces of its parts, joined at
      the seam. With `SplitChar` this fixes `Split` on every string: each
      piece is a maximal run of characters that are not white space, and
      a leading or trailing run of white space leaves an empty first or last
      piece (`SplitFirst`, `SplitLast`). */
  lemma {:induction false} SplitAppend(a: string, b: string)
    ensures Split(a + b) == Join(Split(a), Split(b), EndsSpace(a) && StartsSpace(b))
    decreases |b|
  {
    if b == [] {
      assert a + b == a;
      var p := Split(a);
      assert p[|p| - 1] + [] == p[|p| - 1];
      assert p[..|p| - 1] + [p[|p| - 1]] == p;
    } else {
      var init, c := b[..|b| - 1], b[|b| - 1];
      assert b == init + [c];
      if init == [] {
        SplitSnoc(a, c);
      } else {
        SplitAppend(a, init);
        SplitAppendStep(a, init, c);
      }
    }
  }

  /** What `JoinAssoc` needs at the two seams of `a + init + [c]`. */
  lemma SplitSeams(a: string, init: string, c: char)
    ensures var p, q, r := Split(a), Split(init), Split([c]);
      && (EndsSpace(a) && StartsSpace(init) ==> |p| >= 2 && |q| >= 2 && p[|p| - 1] == [] && q[0] == [])
      && (EndsSpace(init) && IsSpace(c) ==> |q| >= 2 && |r| >= 2 && q[|q| - 1] == [] && r[0] == [])
  {
    SplitLast(a);
    SplitFirst(init);
    SplitLast(init);
    SplitChar(c);
  }

  lemma Reassociate(a: string, init: string, c: char)
    requires init != []
    ensures a + (init + [c]) == (a + init) + [c]
    ensures EndsSpace(a + init) == EndsSpace(init)
    ensures StartsSpace(init + [c]) == StartsSpace(init)
  {
  }

  lemma SplitAppendStep(a: string, init: string, c: char)
    requires init != []
    requires Split(a + init) == Join(Split(a), Split(init), EndsSpace(a) && StartsSpace(init))
    ensures Split(a + (init + [c])) == Join(Split(a), Split(init + [c]), EndsSpace(a) && StartsSpace(init + [c]))
  {
    var p, q, r := Split(a), Split(init), Split([c]);
    var x, y := EndsSpace(a) && StartsSpace(init), EndsSpace(init) && IsSpace(c);
    Reassociate(a, init, c);
    SplitSeams(a, init, c);
    SplitSnoc(a + init, c);
    SplitSnoc(init, c);
    JoinAssoc(p, q, r, x, y);
  }

  /** `filter(word => word.length > 3)`. */
  function LongWords(ws: seq<string>): seq<string>
  {
    if ws == [] then []
    else LongWords(ws[..|ws| - 1]) + (if |ws[|ws| - 1]| > 3 then [ws[|ws| - 1]] else [])
  }

  /** Exactly the words longer than three characters are kept. */
  lemma {:induction false} LongWordsMembers(ws: seq<string>)
    ensures forall w :: w in LongWords(ws) <==> w in ws && |w| > 3
  {
    if ws != [] {
      var init, last := ws[..|ws| - 1], ws[|ws| - 1];
      assert ws == init + [last];
      LongWordsMembers(init);
    }
  }

  lemma LongWordsSnoc(ws: seq<string>, w: string)
    ensures LongWords(ws + [w]) == LongWords(ws) + (if |w| > 3 then [w] else [])
  {
    assert (ws + [w])[..|ws|] == ws;
  }

  /** The filter keeps order and repeats: filtering a concatenation filters
      each part, and every long word is kept as often as it occurs. */
  lemma {:induction false} LongWordsAppend(a: seq<string>, b: seq<string>)
    ensures LongWords(a + b) == LongWords(a) + LongWords(b)
    decreases |b|
  {
    if b == [] {
      assert a + b == a;
    } else {
      var init, last := b[..|b| - 1], b[|b| - 1];
      var kept := if |last| > 3 then [last] else [];
      assert b == init + [last] && a + b == (a + init) + [last];
      LongWordsSnoc(a + init, last);
      LongWordsSnoc(init, last);
      LongWordsAppend(a, init);
      assert LongWords(a) + LongWords(init) + kept == LongWords(a) + (LongWords(init) + kept);
    }
  }

  lemma {:induction false} LongWordsCount(ws: seq<string>, w: string)
    ensures Count(LongWords(ws), w) == if |w| > 3 then Count(ws, w) else 0
  {
    if ws != [] {
      var init, last := ws[..|ws| - 1], ws[|ws| - 1];
      assert ws == init + [last];
      LongWordsCount(init, w);
      LongWordsSnoc(init, last);
      CountSnoc(init, last, w);
      if |last| > 3 {
        CountSnoc(LongWords(init), last, w);
      } else {
        assert LongWords(init) + [] == LongWords(init);
      }
    }
  }

  /** The keywords of one caption, in order, repeats included. */
  function Words(caption: string): seq<string>
  {
    LongWords(Split(StripNonWord(LowerCase(caption))))
  }

  /** A keyword is longer than three characters and holds only lower-case
      ASCII letters, digits and underscores: no white space, no punctuation,
      no capitals. */
  ghost predicate IsKeyword(w: string)
  {
    |w| > 3 && forall c :: c in w ==> IsKeywordChar(c)
  }

  lemma WordsAreKeywords(caption: string)
    ensures forall w :: w in Words(caption) ==> IsKeyword(w)
  {
    var lowered := LowerCase(caption);
    var stripped := StripNonWord(lowered);
    StripNonWordMembers(lowered);
    SplitPieces(stripped);
    LongWordsMembers(Split(stripped));
    forall w, c | w in Words(caption) && c in w ensures IsKeywordChar(c) {
      assert c in stripped && !IsSpace(c);
      var i :| 0 <= i < |lowered| && lowered[i] == c;
      assert c == LowerChar(caption[i]);
    }
  }

  // ---------------------------------------------------------------------
  // The aggregation
  // ---------------------------------------------------------------------

  /** `!post.caption`: a missing or empty caption is skipped. */
  predicate HasCaption(p: Post)
  {
    p.caption.Some? && p.caption.value != ""
  }

  /** The `(yearMonth, word)` pairs one post contributes. */
  function PostKeywords(p: Post): seq<(Key, Key)>
  {
    if HasCaption(p) then MonthPairs(p.timestamp.yearMonth, Words(p.caption.value)) else []
  }

  /** Every `(yearMonth, word)` pair the keyword loops count, in order. */
  function KeywordEvents(posts: seq<Post>): seq<(Key, Key)>
  {
    if posts == [] then []
    else KeywordEvents(posts[..|posts| - 1]) + PostKeywords(posts[|posts| - 1])
  }

  /** The number of keyword occurrences over all captions. */
  function KeywordTotal(posts: seq<Post>): nat
  {
    |KeywordEvents(posts)|
  }

  /** Reference definition of the content analysis of `posts`. */
  function ContentOf(posts: seq<Post>): ContentAnalysis
  {
    var words := Seconds(KeywordEvents(posts));
    ContentAnalysis(
      Tally(words),
      NestedTally(KeywordEvents(posts)),
      Shares(words),
      Tally(Owners(posts)),
      |posts|)
  }

  lemma ContentStep(posts: seq<Post>, i: nat)
    requires i < |posts|
    ensures Owners(posts[..i + 1]) == Owners(posts[..i]) + [posts[i].ownerUsername]
    ensures KeywordEvents(posts[..i + 1]) == KeywordEvents(posts[..i]) + PostKeywords(posts[i])
  {
    assert posts[..i + 1][..i] == posts[..i];
  }

  /** `processContentAnalysis`. */
  method ProcessContentAnalysis(posts: seq<Post>) returns (c: ContentAnalysis)
    ensures c == ContentOf(posts)
  {
    var postingFrequency: map<Key, int> := map[];
    var keywords: map<Key, int>, keywordsOverTime: map<Key, map<Key, int>>, order: seq<Key> := map[], map[], [];
    var i := 0;
    while i < |posts|
      invariant 0 <= i <= |posts|
      invariant postingFrequency == Tally(Owners(posts[..i]))
      invariant Counts(keywords, keywordsOverTime, order) == CountsOf(KeywordEvents(posts[..i]))
    {
      var post := posts[i];
      ContentStep(posts, i);
      TallySnoc(Owners(posts[..i]), post.ownerUsername);
      postingFrequency := Increment(postingFrequency, post.ownerUsername);
      if HasCaption(post) {
        keywords, keywordsOverTime, order :=
          CountKeys(post.timestamp.yearMonth, Words(post.caption.value), KeywordEvents(posts[..i]),
                    keywords, keywordsOverTime, order);
      } else {
        assert KeywordEvents(posts[..i + 1]) == KeywordEvents(posts[..i]);
      }
      i := i + 1;
    }
    assert posts[..i] == posts;
    var words := Seconds(KeywordEvents(posts));
    CountsAreTallies(KeywordEvents(posts));
    FirstOccurrencesDistinct(Seconds(KeywordEvents(posts)));
    var total := SumValues(keywords, order);
    TallySum(words, order);
    var keywordsPercentage := PercentagesOf(keywords, total, order);
    c := ContentAnalysis(keywords, keywordsOverTime, keywordsPercentage, postingFrequency, |posts|);
  }

  // ---------------------------------------------------------------------
  // Properties
  // ---------------------------------------------------------------------

  /** Each post adds one to its owner's count, so the counts add up to the
      number of posts, which is `totalPosts`. */
  lemma PostingFrequencySum(posts: seq<Post>, owners: seq<Key>)
    requires Distinct(owners)
    requires forall k :: k in owners <==> k in ContentOf(posts).postingFrequency
    ensures SumOver(ContentOf(posts).postingFrequency, owners) == |posts| == ContentOf(posts).totalPosts
  {
    TallySum(Owners(posts), owners);
  }

  /** One more post adds one to its owner's count and one to `totalPosts`. */
  lemma ContentAppend(posts: seq<Post>, p: Post)
    ensures ContentOf(posts + [p]).postingFrequency == Increment(ContentOf(posts).postingFrequency, p.ownerUsername)
    ensures ContentOf(posts + [p]).totalPosts == ContentOf(posts).totalPosts + 1
  {
    assert (posts + [p])[..|posts|] == posts;
    TallySnoc(Owners(posts), p.ownerUsername);
  }

  /** A post with a missing or empty caption contributes nothing but its
      owner's count. */
  lemma CaptionlessAppend(posts: seq<Post>, p: Post)
    requires !HasCaption(p)
    ensures ContentOf(posts + [p]).keywords == ContentOf(posts).keywords
    ensures ContentOf(posts + [p]).keywordsOverTime == ContentOf(posts).keywordsOverTime
    ensures ContentOf(posts + [p]).keywordsPercentage == ContentOf(posts).keywordsPercentage
  {
    KeywordEventsSnoc(posts, p);
    assert KeywordEvents(posts + [p]) == KeywordEvents(posts);
  }

  lemma KeywordEventsSnoc(posts: seq<Post>, p: Post)
    ensures KeywordEvents(posts + [p]) == KeywordEvents(posts) + PostKeywords(p)
  {
    assert (posts + [p])[..|posts|] == posts;
  }

  lemma {:induction false} MonthPairsKeys(month: Key, keys: seq<Key>)
    ensures forall e :: e in MonthPairs(month, keys) ==> e.0 == month && e.1 in keys
  {
    if keys != [] {
      MonthPairsKeys(month, keys[..|keys| - 1]);
    }
  }

  lemma {:induction false} KeywordEventsAreKeywords(posts: seq<Post>)
    ensures forall e :: e in KeywordEvents(posts) ==> IsKeyword(e.1)
  {
    if posts != [] {
      var p := posts[|posts| - 1];
      KeywordEventsAreKeywords(posts[..|posts| - 1]);
      if HasCaption(p) {
        MonthPairsKeys(p.timestamp.yearMonth, Words(p.caption.value));
        WordsAreKeywords(p.caption.value);
      }
    }
  }

  /** Every counted keyword is longer than three characters and made of
      lower-case letters, digits and underscores only. */
  lemma KeywordsAreWords(posts: seq<Post>)
    ensures forall w :: w in ContentOf(posts).keywords ==> IsKeyword(w)
    ensures forall m, w :: m in ContentOf(posts).keywordsOverTime && w in ContentOf(posts).keywordsOverTime[m] ==> IsKeyword(w)
  {
    var ev := KeywordEvents(posts);
    KeywordEventsAreKeywords(posts);
    forall w | w in Tally(Seconds(ev)) ensures IsKeyword(w) {
      var i :| 0 <= i < |ev| && Seconds(ev)[i] == w;
      assert ev[i] in ev;
    }
    forall m, w | m in NestedTally(ev) && w in NestedTally(ev)[m] ensures IsKeyword(w) {
      assert (m, w) in ev;
    }
  }

  /** For every word, its per-month counts add up to its overall count (zero
      for a word that was never counted). */
  lemma KeywordMonthSum(posts: seq<Post>, months: seq<Key>, w: Key)
    requires Distinct(months)
    requires forall m :: m in months <==> m in ContentOf(posts).keywordsOverTime
    ensures SumColumn(ContentOf(posts).keywordsOverTime, months, w) == Lookup(ContentOf(posts).keywords, w)
  {
    NestedTallyColumnSum(KeywordEvents(posts), months, w);
  }

  /** When some caption has a keyword, each percentage is the keyword's
      count over the number of keyword occurrences, times 100; over any listing of the keywords without
      repeats they add up to exactly 100. */
  lemma KeywordPercentages(posts: seq<Post>, keys: seq<Key>)
    requires KeywordTotal(posts) > 0
    requires Distinct(keys)
    requires forall k :: k in keys <==> k in ContentOf(posts).keywords
    ensures forall w :: w in ContentOf(posts).keywordsPercentage <==> w in ContentOf(posts).keywords
    ensures forall w :: w in ContentOf(posts).keywordsPercentage ==>
      ContentOf(posts).keywordsPercentage[w] == (ContentOf(posts).keywords[w] as real / KeywordTotal(posts) as real) * 100.0
    ensures SumReal(ContentOf(posts).keywordsPercentage, keys) == 100.0
  {
    var words := Seconds(KeywordEvents(posts));
    SharesSumTo100(words, keys);
  }
}
