/** What grep's patterns mean on texts one can name, and what it prints for an input
    given as lines. */
module GrepLaws {
  import opened Grep

  /** No character of w has a meaning of its own in a pattern. */
  ghost predicate Plain(w: string) { forall i | 0 <= i < |w| :: w[i] !in {'.', '*', '$', '^'} }

  /** A plain pattern stands for itself. */
  lemma {:induction false} PlainHere(w: string, text: string)
    requires Plain(w)
    ensures MatchesHere(w, text) <==> w <= text
  {
    if w == "" {
      HereEmpty(text);
    } else {
      HereOne(w, text);
      if text != "" {
        PlainHere(w[1..], text[1..]);
        assert w == [w[0]] + w[1..] && text == [text[0]] + text[1..];
      }
    }
  }

  /** With '$' it stands for itself at the end of the text. */
  lemma {:induction false} PlainEnd(w: string, text: string)
    requires Plain(w)
    ensures MatchesHere(w + "$", text) <==> text == w
  {
    if w == "" {
      assert w + "$" == "$";
      HereEnd(text);
    } else {
      assert (w + "$")[1..] == w[1..] + "$" && |w + "$"| >= 2;
      HereOne(w + "$", text);
      if text != "" {
        PlainEnd(w[1..], text[1..]);
        assert w == [w[0]] + w[1..] && text == [text[0]] + text[1..];
      }
    }
  }

  ghost predicate Contains(text: string, w: string) { exists i: nat | i <= |text| :: w <= text[i..] }

  ghost predicate EndsWith(text: string, w: string) { exists i: nat | i <= |text| :: text[i..] == w }

  /** Anywhere in the text, at its end, at its start, and the whole text. */
  lemma PlainMatches(w: string, text: string)
    requires Plain(w)
    ensures Matches(w, text) <==> Contains(text, w)
    ensures Matches(w + "$", text) <==> EndsWith(text, w)
    ensures Matches("^" + w, text) <==> w <= text
    ensures Matches("^" + w + "$", text) <==> text == w
  {
    assert w != "" ==> (w + "$")[0] == w[0] != '^';
    assert ("^" + w)[1..] == w && ("^" + w + "$")[1..] == w + "$";
    PlainHere(w, text);
    PlainEnd(w, text);
    forall i: nat | i <= |text|
      ensures MatchesHere(w, text[i..]) <==> w <= text[i..]
      ensures MatchesHere(w + "$", text[i..]) <==> text[i..] == w
    {
      PlainHere(w, text[i..]);
      PlainEnd(w, text[i..]);
    }
  }

  /** c* stands for every run of c, also the empty one, and .* for every text. */
  lemma StarMatches(c: char, text: string)
    requires c !in {'$', '^', '*'}
    ensures Matches("^" + [c] + "*$", text) <==> c == '.' || forall i | 0 <= i < |text| :: text[i] == c
    ensures Matches("^" + [c] + "*", text)
  {
    assert ("^" + [c] + "*$")[1..] == [c] + "*$" && ("^" + [c] + "*")[1..] == [c] + "*";
    RunToEnd(c, text);
    RunSomewhere(c, text);
  }

  lemma RunToEnd(c: char, text: string)
    ensures MatchesHere([c] + "*$", text) <==> c == '.' || forall i | 0 <= i < |text| :: text[i] == c
  {
    var re := [c] + "*$";
    assert re[0] == c && re[2..] == "$" && text[..|text|] == text;
    HereMany(re, text);
    if MatchesHere(re, text) {
      var i: nat :| i <= |text| && StarFrom(c, "$", text, i);
      HereEnd(text[i..]);
      assert i == |text|;
    }
    if c == '.' || forall i | 0 <= i < |text| :: text[i] == c {
      assert Piece(Many(c), text);
      HereEnd(text[|text|..]);
      assert StarFrom(re[0], re[2..], text, |text|);
    }
  }

  lemma RunSomewhere(c: char, text: string)
    ensures MatchesHere([c] + "*", text)
  {
    var re := [c] + "*";
    assert re[0] == c && re[2..] == "" && text[0..] == text;
    HereMany(re, text);
    HereEmpty(text);
    assert StarFrom(re[0], re[2..], text, 0);
  }

  /** '.' stands for any one character. */
  lemma DotMatches(text: string)
    ensures Matches("^.$", text) <==> |text| == 1
  {
    assert "^.$"[1..] == ".$" && ".$"[1..] == "$";
    HereOne(".$", text);
    if text != "" { HereEnd(text[1..]); }
  }

  // --------------------------------------------------------------------- lines

  function Join(lines: seq<string>): string { if lines == [] then "" else lines[0] + "\n" + Join(lines[1..]) }

  /** The matching lines, in order. */
  ghost function Hits(re: string, lines: seq<string>): seq<string> {
    if lines == [] then []
    else (if Matches(re, lines[0]) then [lines[0]] else []) + Hits(re, lines[1..])
  }

  /** A line that fits grep's buffer. */
  ghost predicate Short(line: string) { |line| < BUFSIZE - 1 && '\n' !in line && '\0' !in line }

  lemma {:induction false} NewlineAt(line: string, rest: string)
    requires '\n' !in line && '\0' !in line
    ensures Newline(line + "\n" + rest) == |line|
  {
    if line == "" {
      assert line + "\n" + rest == "\n" + rest;
    } else {
      assert (line + "\n" + rest)[1..] == line[1..] + "\n" + rest;
      NewlineAt(line[1..], rest);
    }
  }

  /** Of an input of lines that fit, grep prints exactly those that match, in
      order; and what follows a line that does not fit is not printed. */
  lemma {:induction false} PrintsHits(re: string, lines: seq<string>, tail: string)
    requires forall i | 0 <= i < |lines| :: Short(lines[i])
    requires '\n' !in tail || Newline(tail) >= BUFSIZE - 1
    ensures Selected(re, Join(lines) + tail) == Join(Hits(re, lines))
  {
    if lines == [] {
      assert Join(lines) + tail == tail;
      assert Newline(tail) < |tail| ==> '\n' in tail;
    } else {
      var line, rest := lines[0], Join(lines[1..]) + tail;
      var s := line + "\n" + rest;
      assert Join(lines) + tail == s;
      NewlineAt(line, rest);
      assert s[..|line|] == line && s[..|line| + 1] == line + "\n" && s[|line| + 1..] == rest;
      PrintsHits(re, lines[1..], tail);
      var more := Hits(re, lines[1..]);
      if Matches(re, line) { assert ([line] + more)[1..] == more; } else { assert [] + more == more; }
    }
  }
}
