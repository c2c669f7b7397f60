/**
 * The two functions of Go's `strings` package that the scraper relies on:
 * `strings.Contains` (payload and phrase tests) and `strings.Split` with the
 * separator " " (tokenising a relative-time phrase). Text is modelled as a
 * sequence of characters; for the ASCII markers involved this agrees with
 * Go's byte-wise behaviour.
 */
module Strings {

  const Space: char := ' '

  /** `sub` occurs in `s` starting at offset `i`. */
  predicate OccursAt(s: string, sub: string, i: int)
  {
    0 <= i && i + |sub| <= |s| && s[i..i + |sub|] == sub
  }

  /** strings.Contains(s, sub); the empty string occurs in every string. */
  function Contains(s: string, sub: string): (r: bool)
    ensures r <==> exists i :: OccursAt(s, sub, i)
    decreases |s|
  {
    if |sub| <= |s| && s[..|sub|] == sub then
      assert OccursAt(s, sub, 0);
      true
    else if |s| == 0 then
      false
    else
      ContainsShift(s, sub);
      Contains(s[1..], sub)
  }

  /** An occurrence in `s` is one at offset 0 or one in `s[1..]`, shifted by one. */
  lemma ContainsShift(s: string, sub: string)
    requires |s| > 0
    ensures (exists i :: OccursAt(s, sub, i)) <==> OccursAt(s, sub, 0) || exists j :: OccursAt(s[1..], sub, j)
  {
    if i :| OccursAt(s, sub, i) {
      if i > 0 {
        assert s[1..][i - 1..i - 1 + |sub|] == s[i..i + |sub|];
        assert OccursAt(s[1..], sub, i - 1);
      }
    }
    if j :| OccursAt(s[1..], sub, j) {
      assert s[1..][j..j + |sub|] == s[j + 1..j + 1 + |sub|];
      assert OccursAt(s, sub, j + 1);
    }
  }

  /** The inverse of Split: the words separated by single spaces. */
  function Join(words: seq<string>): string
    decreases |words|
  {
    if |words| == 0 then ""
    else if |words| == 1 then words[0]
    else words[0] + [Space] + Join(words[1..])
  }

  /**
   * strings.Split(s, " "): the pieces between single spaces. Doubled spaces
   * give empty pieces and the empty string splits into one empty piece.
   */
  function Split(s: string): (pieces: seq<string>)
    ensures |pieces| >= 1
    ensures forall k :: 0 <= k < |pieces| ==> Space !in pieces[k]
    ensures Join(pieces) == s
    decreases |s|
  {
    if |s| == 0 then [""]
    else
      var rest := Split(s[1..]);
      if s[0] == Space then
        assert s == [Space] + s[1..];
        [""] + rest
      else
        var pieces := [[s[0]] + rest[0]] + rest[1..];
        assert pieces[1..] == rest[1..];
        assert s == [s[0]] + s[1..];
        pieces
  }

  /** Splitting after a space-free prefix extends the first piece by that prefix. */
  lemma {:induction false} SplitAfterWord(w: string, rest: string)
    requires Space !in w
    ensures Split(w + rest) == [w + Split(rest)[0]] + Split(rest)[1..]
    decreases |w|
  {
    if |w| == 0 {
      var pieces := Split(rest);
      assert w + rest == rest;
      assert w + pieces[0] == pieces[0];
      assert pieces == [pieces[0]] + pieces[1..];
    } else {
      var s := w + rest;
      assert s[0] == w[0] && s[1..] == w[1..] + rest;
      SplitAfterWord(w[1..], rest);
      assert [w[0]] + (w[1..] + Split(rest)[0]) == w + Split(rest)[0];
    }
  }

  /** Round trip: splitting the join of space-free words gives the words back. */
  lemma {:induction false} SplitJoin(words: seq<string>)
    requires |words| >= 1
    requires forall k :: 0 <= k < |words| ==> Space !in words[k]
    ensures Split(Join(words)) == words
    decreases |words|
  {
    if |words| == 1 {
      SplitAfterWord(words[0], "");
      assert words[0] + "" == words[0];
    } else {
      var tail := Join(words[1..]);
      SplitJoin(words[1..]);
      var spaced := [Space] + tail;
      assert spaced[1..] == tail;
      assert Split(spaced) == [""] + words[1..];
      assert Join(words) == words[0] + spaced;
      SplitAfterWord(words[0], spaced);
      assert words[0] + "" == words[0];
    }
  }

  /** Joining one more word appends a space and the word. */
  lemma {:induction false} JoinAppend(words: seq<string>, w: string)
    requires |words| >= 1
    ensures Join(words + [w]) == Join(words) + [Space] + w
    decreases |words|
  {
    var all := words + [w];
    if |words| == 1 {
      assert all[1..] == [w];
    } else {
      assert all[1..] == words[1..] + [w];
      JoinAppend(words[1..], w);
    }
  }
}
