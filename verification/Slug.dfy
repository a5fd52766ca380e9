/** Readable board ids: a slug of the title and a random suffix. */
module Slug {
  import opened Sequences

  const MAX_SLUG := 32

  predicate SlugChar(c: char) {
    'a' <= c <= 'z' || '0' <= c <= '9'
  }

  // Lower-casing, as far as it can reach a-z: the capitals, the dotted capital I (U+0130) and the
  // Kelvin sign (U+212A). Every other rune lowers to one outside a-z and 0-9, or is already inside.
  function LowerChar(c: char): char {
    if 'A' <= c <= 'Z' then (c as int + 32) as char
    else if c == '\U{0130}' then 'i'
    else if c == '\U{212A}' then 'k'
    else c
  }

  function Lower(s: string): (r: string)
    ensures |r| == |s|
  {
    seq(|s|, i requires 0 <= i < |s| => LowerChar(s[i]))
  }

  predicate Space(c: char) {
    || '\t' <= c <= '\r' || c == ' ' || c == '\U{0085}' || c == '\U{00A0}' || c == '\U{1680}'
    || '\U{2000}' <= c <= '\U{200A}' || c == '\U{2028}' || c == '\U{2029}' || c == '\U{202F}'
    || c == '\U{205F}' || c == '\U{3000}'
  }

  predicate Dash(c: char) {
    c == '-'
  }

  function TrimLeft(s: string, cut: char -> bool): string {
    if s != "" && cut(s[0]) then TrimLeft(s[1..], cut) else s
  }

  function TrimRight(s: string, cut: char -> bool): string {
    if s != "" && cut(s[|s| - 1]) then TrimRight(s[..|s| - 1], cut) else s
  }

  function TrimSpace(s: string): string {
    TrimRight(TrimLeft(s, Space), Space)
  }

  function TrimDashes(s: string): string {
    TrimRight(TrimLeft(s, Dash), Dash)
  }

  // ---------------------------------------------------------------- the words of a title

  /** The maximal runs of slug characters. */
  function Words(s: string): seq<string> {
    if s == "" then []
    else
      var front, c := s[..|s| - 1], s[|s| - 1];
      var before := Words(front);
      if !SlugChar(c) then before
      else if front != "" && SlugChar(front[|front| - 1]) && before != [] then
        before[..|before| - 1] + [before[|before| - 1] + [c]]
      else before + [[c]]
  }

  function Joined(words: seq<string>): string {
    if words == [] then ""
    else if |words| == 1 then words[0]
    else Joined(words[..|words| - 1]) + "-" + words[|words| - 1]
  }

  function Clipped(s: string): string {
    if |s| > MAX_SLUG then TrimDashes(s[..MAX_SLUG]) else s
  }

  /** The slug of a title: its lower-cased words, joined by dashes, at most 32 characters of them. */
  function SlugOf(title: string): string {
    Clipped(Joined(Words(Lower(TrimSpace(title)))))
  }

  // ---------------------------------------------------------------- the shape of a slug

  predicate EndsInDash(s: string) {
    s != "" && s[|s| - 1] == '-'
  }

  // Starts with a slug character, and no two dashes stand together; it may still end in one.
  predicate Opened(s: string) {
    && (forall i :: 0 <= i < |s| ==> SlugChar(s[i]) || s[i] == '-')
    && (s != "" ==> s[0] != '-')
    && (forall i :: 0 < i < |s| ==> !(s[i - 1] == '-' && s[i] == '-'))
  }

  predicate Shaped(s: string) {
    Opened(s) && !EndsInDash(s)
  }

  predicate AllWords(words: seq<string>) {
    forall k :: 0 <= k < |words| ==> words[k] != "" && forall i :: 0 <= i < |words[k]| ==> SlugChar(words[k][i])
  }

  lemma {:induction false} WordsAreWords(s: string)
    ensures AllWords(Words(s))
    ensures s != "" && SlugChar(s[|s| - 1]) ==> Words(s) != []
    ensures Words(s) == [] <==> forall i :: 0 <= i < |s| ==> !SlugChar(s[i])
  {
    if s != "" {
      var front, c := s[..|s| - 1], s[|s| - 1];
      WordsAreWords(front);
      assert forall i :: 0 <= i < |front| ==> front[i] == s[i];
    }
  }

  lemma {:induction false} JoinedShaped(words: seq<string>)
    requires AllWords(words)
    ensures Shaped(Joined(words))
    ensures Joined(words) == "" <==> words == []
  {
    if |words| > 1 {
      JoinedShaped(words[..|words| - 1]);
    }
  }

  // ---------------------------------------------------------------- the loop

  /** What the builder holds after a prefix: the words so far, and a dash once one has ended. */
  predicate Built(b: string, prevDash: bool, s: string) {
    && b == Joined(Words(s)) + (if prevDash then "-" else "")
    && (prevDash <==> Words(s) != [] && !SlugChar(s[|s| - 1]))
  }

  lemma JoinedSnoc(words: seq<string>, word: string)
    ensures Joined(words + [word]) == if words == [] then word else Joined(words) + "-" + word
  {
    assert (words + [word])[..|words|] == words;
  }

  lemma JoinedLonger(front: seq<string>, last: string, c: char)
    ensures Joined(front + [last + [c]]) == Joined(front + [last]) + [c]
  {
    hide *;
    JoinedSnoc(front, last);
    JoinedSnoc(front, last + [c]);
    Regroup(Joined(front) + "-", last, [c]);
  }

  lemma WordsNext(s: string, c: char)
    ensures var before := Words(s);
      Words(s + [c])
      == if !SlugChar(c) then before
         else if s != "" && SlugChar(s[|s| - 1]) && before != [] then
           before[..|before| - 1] + [before[|before| - 1] + [c]]
         else before + [[c]]
  {
    assert (s + [c])[..|s|] == s;
  }

  lemma BuiltNext(b: string, prevDash: bool, s: string, c: char)
    requires Built(b, prevDash, s)
    ensures SlugChar(c) ==> Built(b + [c], false, s + [c])
    ensures !SlugChar(c) && |b| > 0 && !prevDash ==> Built(b + "-", true, s + [c])
    ensures !SlugChar(c) && !(|b| > 0 && !prevDash) ==> Built(b, prevDash, s + [c])
  {
    WordsNext(s, c);
    WordsAreWords(s);
    JoinedShaped(Words(s));
    if SlugChar(c) {
      BuiltLonger(b, prevDash, s, c);
    }
    hide Words, Joined, AllWords, Shaped;
  }

  lemma BuiltLonger(b: string, prevDash: bool, s: string, c: char)
    requires Built(b, prevDash, s) && SlugChar(c)
    ensures Built(b + [c], false, s + [c])
  {
    WordsNext(s, c);
    var words := Words(s);
    assert words != [] ==> s != "";
    hide Words, Joined;
    if words != [] && SlugChar(s[|s| - 1]) {
      var front, last := words[..|words| - 1], words[|words| - 1];
      assert words == front + [last];
      JoinedLonger(front, last, c);
    } else {
      JoinedSnoc(words, [c]);
    }
  }

  method Slugify(title: string) returns (out: string)
    ensures out == SlugOf(title)
  {
    var s := Lower(TrimSpace(title));
    var b := "";
    var prevDash := false;
    var i := 0;
    while i < |s|
      invariant 0 <= i <= |s| && Built(b, prevDash, s[..i])
    {
      var r := s[i];
      BuiltNext(b, prevDash, s[..i], r);
      assert s[..i + 1] == s[..i] + [r];
      if SlugChar(r) {
        b := b + [r];
        prevDash := false;
      } else if |b| > 0 && !prevDash {
        b := b + "-";
        prevDash := true;
      }
      i := i + 1;
    }
    assert s[..i] == s;
    TrimmedBuilder(b, prevDash, s);
    out := TrimDashes(b);
    if |out| > MAX_SLUG {
      out := TrimDashes(out[..MAX_SLUG]);
    }
  }

  /** Trimming takes a dash off the end, if there is one, and nothing off the start. */
  lemma TrimOpened(s: string)
    requires Opened(s)
    ensures TrimDashes(s) == if EndsInDash(s) then s[..|s| - 1] else s
    ensures Shaped(TrimDashes(s))
    ensures TrimDashes(s) == "" <==> s == ""
  {
    assert TrimLeft(s, Dash) == s;
    assert TrimDashes(s) == TrimRight(s, Dash);
    if EndsInDash(s) {
      var front := s[..|s| - 1];
      assert |s| > 1 && front[|front| - 1] == s[|s| - 2];
      assert TrimRight(front, Dash) == front;
    }
  }

  lemma TrimmedBuilder(b: string, prevDash: bool, s: string)
    requires Built(b, prevDash, s)
    ensures TrimDashes(b) == Joined(Words(s))
  {
    WordsAreWords(s);
    JoinedShaped(Words(s));
    TrimOpened(b);
  }

  // ---------------------------------------------------------------- what every slug is

  /** Every slug is made of a-z, 0-9 and single inner dashes, and has at most 32 characters. */
  lemma SlugIsShaped(title: string)
    ensures Shaped(SlugOf(title)) && |SlugOf(title)| <= 32
  {
    var words := Words(Lower(TrimSpace(title)));
    WordsAreWords(Lower(TrimSpace(title)));
    JoinedShaped(words);
    if |Joined(words)| > MAX_SLUG {
      TrimOpened(Joined(words)[..MAX_SLUG]);
    }
  }

  /** The lower-cased title has a letter or a digit. */
  predicate Sayable(s: string) {
    exists i :: 0 <= i < |s| && SlugChar(LowerChar(s[i]))
  }

  lemma SayableParts(a: string, b: string)
    ensures Sayable(a + b) <==> Sayable(a) || Sayable(b)
  {
    if i :| 0 <= i < |a| && SlugChar(LowerChar(a[i])) {
      assert (a + b)[i] == a[i];
    }
    if i :| 0 <= i < |b| && SlugChar(LowerChar(b[i])) {
      assert (a + b)[|a| + i] == b[i];
    }
  }

  lemma {:induction false} TrimLeftKeeps(s: string)
    ensures Sayable(TrimLeft(s, Space)) <==> Sayable(s)
  {
    if s != "" && Space(s[0]) {
      TrimLeftKeeps(s[1..]);
      SayableParts([s[0]], s[1..]);
      assert s == [s[0]] + s[1..];
    }
  }

  lemma {:induction false} TrimRightKeeps(s: string)
    ensures Sayable(TrimRight(s, Space)) <==> Sayable(s)
  {
    if s != "" && Space(s[|s| - 1]) {
      var front, c := s[..|s| - 1], s[|s| - 1];
      TrimRightKeeps(front);
      SayableParts(front, [c]);
      assert s == front + [c];
    }
  }

  /** A slug is empty exactly if the lower-cased title has none of a-z and 0-9. */
  lemma EmptySlug(title: string)
    ensures SlugOf(title) == "" <==> !Sayable(title)
  {
    var s := TrimSpace(title);
    TrimLeftKeeps(title);
    TrimRightKeeps(TrimLeft(title, Space));
    WordsAreWords(Lower(s));
    JoinedShaped(Words(Lower(s)));
    var joined := Joined(Words(Lower(s)));
    if |joined| > MAX_SLUG {
      TrimOpened(joined[..MAX_SLUG]);
    }
    assert forall i :: 0 <= i < |s| ==> Lower(s)[i] == LowerChar(s[i]);
  }

  lemma {:induction false} WordsOfOpened(s: string)
    requires Opened(s)
    ensures Built(s, EndsInDash(s), s)
  {
    if s != "" {
      var front, c := s[..|s| - 1], s[|s| - 1];
      assert s == front + [c];
      WordsOfOpened(front);
      assert SlugChar(c) || (|front| > 0 && !EndsInDash(front));
      BuiltNext(front, EndsInDash(front), front, c);
    }
  }

  /** Making a slug of a slug changes nothing. */
  lemma SlugIdempotent(title: string)
    ensures SlugOf(SlugOf(title)) == SlugOf(title)
  {
    var s := SlugOf(title);
    SlugIsShaped(title);
    assert s != "" ==> !Space(s[0]) && !Space(s[|s| - 1]);
    assert TrimSpace(s) == s;
    assert Lower(s) == s;
    WordsOfOpened(s);
  }

  /** Whatever has the shape of a slug is its own slug. */
  lemma ShapedIsItsOwnSlug(s: string)
    requires Shaped(s) && |s| <= 32
    ensures SlugOf(s) == s
  {
    assert s != "" ==> !Space(s[0]) && !Space(s[|s| - 1]);
    assert TrimSpace(s) == s;
    assert Lower(s) == s;
    WordsOfOpened(s);
  }

  /** A longer slug is cut after 32 characters, and a dash at the cut goes too. */
  lemma LongSlugIsCut(title: string)
    ensures var full, slug := Joined(Words(Lower(TrimSpace(title)))), SlugOf(title);
      slug == if |full| <= 32 then full else if full[31] == '-' then full[..31] else full[..32]
  {
    var full := Joined(Words(Lower(TrimSpace(title))));
    WordsAreWords(Lower(TrimSpace(title)));
    JoinedShaped(Words(Lower(TrimSpace(title))));
    if |full| > 32 {
      TrimOpened(full[..32]);
      assert full[..32][..31] == full[..31];
    }
  }

  function UpperChar(c: char): char {
    if 'a' <= c <= 'z' then (c as int - 32) as char else c
  }

  function Upper(s: string): (r: string)
    ensures |r| == |s| && forall i :: 0 <= i < |s| ==> r[i] == UpperChar(s[i])
  {
    seq(|s|, i requires 0 <= i < |s| => UpperChar(s[i]))
  }

  lemma {:induction false} TrimLeftUpper(s: string)
    ensures TrimLeft(Upper(s), Space) == Upper(TrimLeft(s, Space))
  {
    if s != "" && Space(s[0]) {
      TrimLeftUpper(s[1..]);
      assert Upper(s)[1..] == Upper(s[1..]);
    }
  }

  lemma {:induction false} TrimRightUpper(s: string)
    ensures TrimRight(Upper(s), Space) == Upper(TrimRight(s, Space))
  {
    if s != "" && Space(s[|s| - 1]) {
      TrimRightUpper(s[..|s| - 1]);
      assert Upper(s)[..|s| - 1] == Upper(s[..|s| - 1]);
    }
  }

  /** A title and its capitals have the same slug. */
  lemma CaseDoesNotMatter(title: string)
    ensures SlugOf(Upper(title)) == SlugOf(title)
  {
    TrimLeftUpper(title);
    TrimRightUpper(TrimLeft(title, Space));
    var s := TrimSpace(title);
    assert Lower(Upper(s)) == Lower(s);
  }

  /** The white space around a title does not matter. */
  lemma SurroundingSpace(title: string)
    ensures SlugOf(TrimSpace(title)) == SlugOf(title)
  {
    TrimSpaceTwice(title);
  }

  lemma {:induction false} TrimLeftDone(s: string)
    ensures var t := TrimLeft(s, Space); t == "" || !Space(t[0])
  {
    if s != "" && Space(s[0]) {
      TrimLeftDone(s[1..]);
    }
  }

  lemma {:induction false} TrimRightDone(s: string)
    ensures var t := TrimRight(s, Space); t <= s && (t == "" || !Space(t[|t| - 1]))
  {
    if s != "" && Space(s[|s| - 1]) {
      TrimRightDone(s[..|s| - 1]);
    }
  }

  lemma TrimSpaceTwice(s: string)
    ensures TrimSpace(TrimSpace(s)) == TrimSpace(s)
  {
    TrimLeftDone(s);
    TrimRightDone(TrimLeft(s, Space));
  }

  // ---------------------------------------------------------------- board ids

  /** A new board's id; the suffix is random. */
  function NewBoardID(title: string, suffix: string): string {
    (if SlugOf(title) == "" then "board" else SlugOf(title)) + "-" + suffix
  }

  predicate Hex(s: string) {
    forall i :: 0 <= i < |s| ==> '0' <= s[i] <= '9' || 'a' <= s[i] <= 'f'
  }

  /** An id is slug-shaped itself, and ids made with different suffixes differ whatever the titles. */
  lemma BoardIdsDiffer(a: string, b: string, s: string, t: string)
    requires |s| == |t| == 8 && Hex(s) && Hex(t)
    ensures Shaped(NewBoardID(a, s)) && |NewBoardID(a, s)| <= 41
    ensures s != t ==> NewBoardID(a, s) != NewBoardID(b, t)
    ensures NewBoardID(a, s) == (if Sayable(a) then SlugOf(a) else "board") + "-" + s
  {
    SlugIsShaped(a);
    EmptySlug(a);
    var x, y := NewBoardID(a, s), NewBoardID(b, t);
    assert x[|x| - 8..] == s && y[|y| - 8..] == t;
  }
}
