/**
 * The two string helpers of Go's `strings` package that the object model
 * uses: `Split` with a one-character separator and `Join`.
 */
module Text {

  /**
   * `strings.Split(s, sep)`: the pieces between separators, in order. The
   * empty string gives one empty piece, and adjacent separators give an empty
   * piece between them.
   */
  function Split(s: string, sep: char): (r: seq<string>)
    ensures |r| >= 1
    ensures forall i :: 0 <= i < |r| ==> sep !in r[i]
    decreases |s|
  {
    if |s| == 0 then [""]
    else
      var rest := Split(s[1..], sep);
      if s[0] == sep then [""] + rest
      else [[s[0]] + rest[0]] + rest[1..]
  }

  /** `strings.Join(ws, sep)`: the pieces with one separator between neighbours. */
  function Join(ws: seq<string>, sep: char): string
    decreases |ws|
  {
    if |ws| == 0 then ""
    else if |ws| == 1 then ws[0]
    else ws[0] + [sep] + Join(ws[1..], sep)
  }

  /** Joining the pieces of a split gives back the original string. */
  lemma {:induction false} JoinSplit(s: string, sep: char)
    ensures Join(Split(s, sep), sep) == s
    decreases |s|
  {
    if |s| > 0 {
      var rest := Split(s[1..], sep);
      JoinSplit(s[1..], sep);
      if s[0] == sep {
        assert Split(s, sep) == [""] + rest;
        assert ([""] + rest)[1..] == rest;
        assert s == [sep] + s[1..];
      } else if |rest| == 1 {
        assert Split(s, sep) == [[s[0]] + rest[0]];
        assert s == [s[0]] + s[1..];
      } else {
        var r := Split(s, sep);
        assert r == [[s[0]] + rest[0]] + rest[1..];
        assert r[1..] == rest[1..];
        assert Join(rest, sep) == rest[0] + [sep] + Join(rest[1..], sep);
        assert s == [s[0]] + s[1..];
      }
    }
  }

  /** A split of a word without separators, followed by anything, glues the word to the first piece. */
  lemma {:induction false} SplitPrefix(w: string, t: string, sep: char)
    requires sep !in w
    ensures Split(w + t, sep) == [w + Split(t, sep)[0]] + Split(t, sep)[1..]
    decreases |w|
  {
    if |w| > 0 {
      SplitPrefix(w[1..], t, sep);
      var s := Split(t, sep);
      var rest := Split(w[1..] + t, sep);
      assert (w + t)[0] == w[0] && w[0] != sep;
      assert (w + t)[1..] == w[1..] + t;
      assert Split(w + t, sep) == [[w[0]] + rest[0]] + rest[1..];
      assert rest[0] == w[1..] + s[0] && rest[1..] == s[1..];
      assert [w[0]] + (w[1..] + s[0]) == w + s[0];
    } else {
      var r := Split(t, sep);
      assert w + t == t && w + r[0] == r[0];
      assert r == [r[0]] + r[1..];
    }
  }

  /** Splitting the join of separator-free pieces gives back the pieces; at least one piece is needed. */
  lemma {:induction false} SplitJoin(ws: seq<string>, sep: char)
    requires |ws| >= 1
    requires forall i :: 0 <= i < |ws| ==> sep !in ws[i]
    ensures Split(Join(ws, sep), sep) == ws
    decreases |ws|
  {
    if |ws| == 1 {
      SplitPrefix(ws[0], "", sep);
      assert ws[0] + "" == ws[0];
    } else {
      var tail := [sep] + Join(ws[1..], sep);
      SplitJoin(ws[1..], sep);
      assert Join(ws, sep) == ws[0] + tail;
      SplitPrefix(ws[0], tail, sep);
      assert tail[0] == sep && tail[1..] == Join(ws[1..], sep);
      assert Split(tail, sep) == [""] + ws[1..];
      assert ws[0] + "" == ws[0];
    }
  }
}
