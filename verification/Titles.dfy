/** Title normalisation: what the identity of a finding without a CVE ignores about its title. */
module Titles {
  import opened Text
  import opened Signature

  /** Unicode whitespace as both `str.strip` and the pattern `\s` understand it. */
  predicate Space(c: char) {
    var n := c as int;
    || 0x09 <= n <= 0x0D || 0x1C <= n <= 0x20 || n == 0x85 || n == 0xA0 || n == 0x1680
    || 0x2000 <= n <= 0x200A || n == 0x2028 || n == 0x2029 || n == 0x202F || n == 0x205F || n == 0x3000
  }

  function DropSpaces(s: string): (r: string)
    ensures |r| <= |s| && (r != [] ==> !Space(r[0]))
  {
    if s != [] && Space(s[0]) then DropSpaces(s[1..]) else s
  }

  function DropTrailing(s: string): (r: string)
    ensures r <= s && (r != [] ==> !Space(r[|r| - 1]))
  {
    if s != [] && Space(s[|s| - 1]) then DropTrailing(s[..|s| - 1]) else s
  }

  function Strip(s: string): string {
    DropTrailing(DropSpaces(s))
  }

  /** Every run of whitespace becomes one blank. */
  function Collapse(s: string): string
    decreases |s|
  {
    if s == [] then []
    else if Space(s[0]) then [' '] + Collapse(DropSpaces(s[1..]))
    else [s[0]] + Collapse(s[1..])
  }

  /** `normalize_title`, for a given lower-casing of texts. */
  function NormalizeTitle(lower: string -> string, title: string): string {
    Collapse(lower(Strip(title)))
  }

  /** What is asked of lower-casing: it works word by word, leaves whitespace alone and neither creates nor
      removes words. Unicode lower-casing does, final sigma included: its context ends at whitespace. */
  ghost predicate WordWise(lower: string -> string) {
    && (forall s, c: char, t | Space(c) :: lower(s + [c] + t) == lower(s) + [c] + lower(t))
    && (forall w | IsWord(w) :: IsWord(lower(w)))
    && lower([]) == []
  }

  // ---- Words ----

  function WordLength(s: string): (n: nat)
    ensures n <= |s| && (forall k | 0 <= k < n :: !Space(s[k])) && (n < |s| ==> Space(s[n]))
  {
    if s == [] || Space(s[0]) then 0 else 1 + WordLength(s[1..])
  }

  /** The maximal runs of other characters. */
  function Words(s: string): seq<string>
    decreases |s|
  {
    var t := DropSpaces(s);
    if t == [] then [] else [t[..WordLength(t)]] + Words(t[WordLength(t)..])
  }

  predicate IsWord(w: string) {
    w != [] && forall c | c in w :: !Space(c)
  }

  lemma {:induction false} WordsAreWords(s: string)
    ensures forall w | w in Words(s) :: IsWord(w)
    decreases |s|
  {
    var t := DropSpaces(s);
    if t != [] {
      WordsAreWords(t[WordLength(t)..]);
    }
  }

  lemma WordLengthIs(s: string, n: nat)
    requires n <= |s| && (forall k | 0 <= k < n :: !Space(s[k])) && (n < |s| ==> Space(s[n]))
    ensures WordLength(s) == n
  {
  }

  lemma {:induction false} DropSpacesAppend(s: string, c: char)
    requires Space(c)
    ensures DropSpaces(s + [c]) == if DropSpaces(s) == [] then [] else DropSpaces(s) + [c]
  {
    if s == [] {
      assert DropSpaces([c][1..]) == [];
    } else {
      assert (s + [c])[1..] == s[1..] + [c];
      if Space(s[0]) {
        DropSpacesAppend(s[1..], c);
      }
    }
  }

  lemma {:induction false} WordsIgnoreTrailingSpace(s: string, c: char)
    requires Space(c)
    ensures Words(s + [c]) == Words(s)
    decreases |s|
  {
    DropSpacesAppend(s, c);
    var t := DropSpaces(s);
    if t != [] {
      var n := WordLength(t);
      WordLengthIs(t + [c], n);
      assert (t + [c])[..n] == t[..n] && (t + [c])[n..] == t[n..] + [c];
      WordsIgnoreTrailingSpace(t[n..], c);
    }
  }

  lemma {:induction false} WordsOfDropTrailing(s: string)
    ensures Words(DropTrailing(s)) == Words(s)
  {
    if s != [] && Space(s[|s| - 1]) {
      WordsOfDropTrailing(s[..|s| - 1]);
      assert s == s[..|s| - 1] + [s[|s| - 1]];
      WordsIgnoreTrailingSpace(s[..|s| - 1], s[|s| - 1]);
    }
  }

  lemma WordsOfStrip(s: string)
    ensures Words(Strip(s)) == Words(s)
  {
    WordsOfDropTrailing(DropSpaces(s));
    WordsOfDropSpaces(s);
  }

  lemma WordsOfDropSpaces(s: string)
    ensures Words(DropSpaces(s)) == Words(s)
  {
    assert DropSpaces(DropSpaces(s)) == DropSpaces(s);
  }

  // ---- Collapsing is joining the words by single blanks ----

  lemma {:induction false} CollapseWord(w: string, rest: string)
    requires forall c | c in w :: !Space(c)
    ensures Collapse(w + rest) == w + Collapse(rest)
  {
    if w == [] {
      assert w + rest == rest;
    } else {
      assert (w + rest)[1..] == w[1..] + rest;
      CollapseWord(w[1..], rest);
    }
  }

  /** Neither end is whitespace. */
  predicate Trimmed(s: string) {
    s != [] ==> !Space(s[0]) && !Space(s[|s| - 1])
  }

  lemma {:induction false} DropSpacesKeepsEnd(s: string)
    requires s != [] && !Space(s[|s| - 1])
    ensures DropSpaces(s) != [] && DropSpaces(s)[|DropSpaces(s)| - 1] == s[|s| - 1]
  {
    if Space(s[0]) {
      DropSpacesKeepsEnd(s[1..]);
    }
  }

  lemma {:induction false} CollapseJoinsWords(s: string)
    requires Trimmed(s)
    ensures Collapse(s) == Join(Words(s), ' ')
    decreases |s|
  {
    if s != [] {
      var n := WordLength(s);
      var w, rest := s[..n], s[n..];
      assert s == w + rest && DropSpaces(s) == s;
      CollapseWord(w, rest);
      if rest == [] {
        assert Words(s) == [w];
      } else {
        assert rest[|rest| - 1] == s[|s| - 1];
        DropSpacesKeepsEnd(rest);
        assert DropSpaces(rest) == DropSpaces(rest[1..]);
        CollapseJoinsWords(DropSpaces(rest));
        WordsOfDropSpaces(rest);
        assert Words(rest) != [];
        JoinCons(w, Words(rest), ' ');
      }
    }
  }

  lemma StripIsTrimmed(s: string)
    ensures Trimmed(Strip(s))
  {
  }

  // ---- Lower case ----

  lemma LowerAt(lower: string -> string, s: string, i: nat)
    requires WordWise(lower) && i < |s| && Space(s[i])
    ensures lower(s) == lower(s[..i]) + [s[i]] + lower(s[i + 1..])
  {
    assert s == s[..i] + [s[i]] + s[i + 1..];
  }

  function Mapped(lower: string -> string, words: seq<string>): seq<string> {
    if words == [] then [] else [lower(words[0])] + Mapped(lower, words[1..])
  }

  lemma FirstWord(w: string, tail: string)
    requires IsWord(w) && (tail != [] ==> Space(tail[0]))
    ensures Words(w + tail) == [w] + Words(tail)
  {
    WordLengthIs(w + tail, |w|);
    assert (w + tail)[..|w|] == w && (w + tail)[|w|..] == tail;
  }

  lemma SpaceFirst(c: char, t: string)
    requires Space(c)
    ensures Words([c] + t) == Words(t)
  {
    assert ([c] + t)[1..] == t;
    WordsOfDropSpaces(t);
    WordsOfDropSpaces([c] + t);
  }

  predicate SpaceFree(w: string) {
    forall c | c in w :: !Space(c)
  }

  /** Splitting off what comes before the first space. */
  lemma WordsAtSpace(w: string, c: char, t: string)
    requires SpaceFree(w) && Space(c)
    ensures Words(w + [c] + t) == (if w == [] then [] else [w]) + Words(t)
  {
    SpaceFirst(c, t);
    if w == [] {
      assert w + [c] + t == [c] + t;
    } else {
      FirstWord(w, [c] + t);
      assert w + [c] + t == w + ([c] + t);
    }
  }

  lemma LowerOfSpaceFree(lower: string -> string, w: string)
    requires WordWise(lower) && SpaceFree(w)
    ensures SpaceFree(lower(w)) && (lower(w) == [] <==> w == [])
    ensures Words(lower(w)) == Mapped(lower, Words(w))
  {
    if w != [] {
      assert IsWord(w);
      FirstWord(w, []);
      FirstWord(lower(w), []);
      assert w + [] == w && lower(w) + [] == lower(w) && Words("") == [];
    }
  }

  /** The words of the lower-cased text are the lower-cased words. */
  lemma {:induction false} WordsOfLower(lower: string -> string, s: string)
    requires WordWise(lower)
    ensures Words(lower(s)) == Mapped(lower, Words(s))
    decreases |s|
  {
    var n := FirstSpace(s);
    if n == |s| {
      assert s[..n] == s;
      LowerOfSpaceFree(lower, s);
    } else {
      assert s == s[..n] + [s[n]] + s[n + 1..];
      WordsOfLower(lower, s[n + 1..]);
      WordsOfLowerAtSpace(lower, s[..n], s[n], s[n + 1..]);
    }
  }

  lemma WordsOfLowerAtSpace(lower: string -> string, w: string, c: char, t: string)
    requires WordWise(lower) && SpaceFree(w) && Space(c) && Words(lower(t)) == Mapped(lower, Words(t))
    ensures Words(lower(w + [c] + t)) == Mapped(lower, Words(w + [c] + t))
  {
    LowerOfSpaceFree(lower, w);
    WordsAtSpace(w, c, t);
    WordsAtSpace(lower(w), c, lower(t));
    MappedCons(lower, w, Words(t));
  }

  lemma MappedCons(lower: string -> string, w: string, words: seq<string>)
    ensures Mapped(lower, [w] + words) == [lower(w)] + Mapped(lower, words)
    ensures [] + words == words
  {
    assert ([w] + words)[1..] == words;
  }

  lemma FirstSpace(s: string) returns (n: nat)
    ensures n <= |s| && SpaceFree(s[..n]) && (n < |s| ==> Space(s[n]))
  {
    n := WordLength(s);
  }

  lemma {:induction false} LowerKeepsEnd(lower: string -> string, s: string)
    requires WordWise(lower) && s != [] && !Space(s[|s| - 1])
    ensures lower(s) != [] && !Space(lower(s)[|lower(s)| - 1])
    decreases |s|
  {
    if i :| 0 <= i < |s| && Space(s[i]) {
      LowerAt(lower, s, i);
      LowerKeepsEnd(lower, s[i + 1..]);
    } else {
      LowerIsWord(lower, s);
    }
  }

  lemma LowerIsWord(lower: string -> string, w: string)
    requires WordWise(lower) && w != [] && forall i | 0 <= i < |w| :: !Space(w[i])
    ensures IsWord(lower(w))
    ensures !Space(lower(w)[0]) && !Space(lower(w)[|lower(w)| - 1])
  {
    assert IsWord(w);
    assert lower(w)[0] in lower(w) && lower(w)[|lower(w)| - 1] in lower(w);
  }

  lemma LowerKeepsStart(lower: string -> string, s: string)
    requires WordWise(lower) && s != [] && !Space(s[0])
    ensures lower(s) != [] && !Space(lower(s)[0])
  {
    var n := WordLength(s);
    LowerIsWord(lower, s[..n]);
    if n < |s| {
      LowerAt(lower, s, n);
    } else {
      assert s[..n] == s;
    }
  }

  lemma LowerKeepsTrimmed(lower: string -> string, s: string)
    requires WordWise(lower) && Trimmed(s)
    ensures Trimmed(lower(s))
  {
    if s != [] {
      LowerKeepsStart(lower, s);
      LowerKeepsEnd(lower, s);
    }
  }

  /** The normal form: the lower-cased words, joined by single blanks. */
  lemma NormalFormIsTheWords(lower: string -> string, title: string)
    requires WordWise(lower)
    ensures NormalizeTitle(lower, title) == Join(Mapped(lower, Words(title)), ' ')
    ensures Mapped(lower, Words(title)) == Words(lower(title))
  {
    StripIsTrimmed(title);
    LowerKeepsTrimmed(lower, Strip(title));
    CollapseJoinsWords(lower(Strip(title)));
    WordsOfLower(lower, Strip(title));
    WordsOfStrip(title);
    WordsOfLower(lower, title);
  }

  /** Two titles have one normal form exactly when they have the same words, case aside: spacing is
      ignored and nothing else is. */
  lemma SameTitleIffSameWords(lower: string -> string, a: string, b: string)
    requires WordWise(lower)
    ensures NormalizeTitle(lower, a) == NormalizeTitle(lower, b) <==> Words(lower(a)) == Words(lower(b))
  {
    NormalFormIsTheWords(lower, a);
    NormalFormIsTheWords(lower, b);
    var v, w := Words(lower(a)), Words(lower(b));
    WordsAreWords(lower(a));
    WordsAreWords(lower(b));
    JoinIsEmptyOnlyForNone(v);
    JoinIsEmptyOnlyForNone(w);
    WordsAreFree(v);
    WordsAreFree(w);
    if v != [] && w != [] && Join(v, ' ') == Join(w, ' ') {
      JoinInjective(v, w, ' ');
    }
  }

  lemma WordsAreFree(words: seq<string>)
    requires forall w | w in words :: IsWord(w)
    ensures Free(words, ' ')
  {
    forall w | w in words
      ensures ' ' !in w
    {
      assert Space(' ');
    }
  }

  lemma JoinIsEmptyOnlyForNone(words: seq<string>)
    requires forall w | w in words :: IsWord(w)
    ensures Join(words, ' ') == [] <==> words == []
  {
    if words != [] {
      assert words[0] in words;
      assert |Join(words, ' ')| >= |words[0]|;
    }
  }

  // ---- Normalising twice ----

  lemma {:induction false} WordsOfJoin(words: seq<string>)
    requires forall w | w in words :: IsWord(w)
    ensures Words(Join(words, ' ')) == words
  {
    if words != [] {
      var w, rest := words[0], words[1..];
      assert words == [w] + rest && w in words;
      WordsOfJoin(rest);
      if rest == [] {
        FirstWord(w, []);
        assert Join(words, ' ') == w + [];
      } else {
        JoinCons(w, rest, ' ');
        OneWordMore(w, Join(rest, ' '));
      }
    }
  }

  lemma OneWordMore(w: string, joined: string)
    requires IsWord(w)
    ensures Words(w + [' '] + joined) == [w] + Words(joined)
  {
    assert Space(' ');
    WordsAtSpace(w, ' ', joined);
  }

  lemma {:induction false} MappedTwice(lower: string -> string, words: seq<string>)
    requires forall s :: lower(lower(s)) == lower(s)
    ensures Mapped(lower, Mapped(lower, words)) == Mapped(lower, words)
  {
    if words != [] {
      MappedTwice(lower, words[1..]);
    }
  }

  /** Normalising a normalised title changes nothing. */
  lemma NormalizingTwice(lower: string -> string, title: string)
    requires WordWise(lower) && forall s :: lower(lower(s)) == lower(s)
    ensures NormalizeTitle(lower, NormalizeTitle(lower, title)) == NormalizeTitle(lower, title)
  {
    var words := Mapped(lower, Words(title));
    NormalFormIsTheWords(lower, title);
    NormalFormIsTheWords(lower, NormalizeTitle(lower, title));
    WordsAreWords(lower(title));
    WordsOfJoin(words);
    MappedTwice(lower, Words(title));
  }

  // ---- ASCII lower-casing is one such ----

  lemma AsciiLowerIsWordWise()
    ensures WordWise(Lower) && forall s :: Lower(Lower(s)) == Lower(s)
  {
    forall s, c: char, t | Space(c)
      ensures Lower(s + [c] + t) == Lower(s) + [c] + Lower(t)
    {
    }
    forall w | IsWord(w)
      ensures IsWord(Lower(w))
    {
      forall c | c in Lower(w)
        ensures !Space(c)
      {
        var i :| 0 <= i < |w| && Lower(w)[i] == c;
        assert w[i] in w;
      }
    }
    forall s
      ensures Lower(Lower(s)) == Lower(s)
    {
    }
  }
}
