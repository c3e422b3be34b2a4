/** The regular-expression matcher of user/grep.c against the language its
    patterns denote.  A C string is the sequence of characters before its NUL. */
module Grep {
  /** One character of the pattern, or a starred one. */
  datatype Item = One(c: char) | Many(c: char)
  datatype Pattern = Pattern(items: seq<Item>, toEnd: bool)

  /** The pattern after a leading '^': literals, '.', c*, and a final '$'. */
  function Parse(re: string): Pattern {
    if re == "" then Pattern([], false)
    else if |re| >= 2 && re[1] == '*' then Before(Many(re[0]), Parse(re[2..]))
    else if re == "$" then Pattern([], true)
    else Before(One(re[0]), Parse(re[1..]))
  }

  function Before(it: Item, p: Pattern): Pattern { Pattern([it] + p.items, p.toEnd) }

  predicate Fits(c: char, x: char) { c == '.' || c == x }

  /** The strings one item stands for. */
  ghost predicate Piece(it: Item, w: string) {
    match it
    case One(c) => |w| == 1 && Fits(c, w[0])
    case Many(c) => forall i | 0 <= i < |w| :: Fits(c, w[i])
  }

  function Concat(pieces: seq<string>): string { if pieces == [] then "" else pieces[0] + Concat(pieces[1..]) }

  ghost predicate Splits(items: seq<Item>, w: string, pieces: seq<string>) {
    |pieces| == |items| && Concat(pieces) == w && forall i | 0 <= i < |items| :: Piece(items[i], pieces[i])
  }

  /** w is in the language of the items: a concatenation of one piece for each. */
  ghost predicate Denotes(items: seq<Item>, w: string) { exists pieces: seq<string> :: Splits(items, w, pieces) }

  /** A prefix of text of length k matches, up to the end if so anchored. */
  ghost predicate MatchesTo(re: string, text: string, k: nat) {
    k <= |text| && Denotes(Parse(re).items, text[..k]) && (Parse(re).toEnd ==> k == |text|)
  }

  ghost predicate MatchesHere(re: string, text: string) { exists k: nat | k <= |text| :: MatchesTo(re, text, k) }

  /** The whole pattern, which a leading '^' ties to the start of the text. */
  ghost predicate Matches(re: string, text: string) {
    if re != "" && re[0] == '^' then MatchesHere(re[1..], text)
    else exists i: nat | i <= |text| :: MatchesHere(re, text[i..])
  }

  // ------------------------------------------------------------ denotation

  lemma DenotesNil(w: string)
    ensures Denotes([], w) <==> w == ""
  {
    assert Splits([], "", []);
    if Denotes([], w) {
      var pieces: seq<string> :| Splits([], w, pieces);
      assert pieces == [];
    }
  }

  lemma DenotesFirst(it: Item, items: seq<Item>, w: string, j: nat)
    requires j <= |w| && Piece(it, w[..j]) && Denotes(items, w[j..])
    ensures Denotes([it] + items, w)
  {
    var pieces: seq<string> :| Splits(items, w[j..], pieces);
    assert ([w[..j]] + pieces)[1..] == pieces && w == w[..j] + w[j..];
    assert Splits([it] + items, w, [w[..j]] + pieces);
  }

  lemma DenotesSplit(it: Item, items: seq<Item>, w: string) returns (j: nat)
    requires Denotes([it] + items, w)
    ensures j <= |w| && Piece(it, w[..j]) && Denotes(items, w[j..])
  {
    var pieces: seq<string> :| Splits([it] + items, w, pieces);
    j := |pieces[0]|;
    assert w[..j] == pieces[0] && w[j..] == Concat(pieces[1..]);
    assert Piece(([it] + items)[0], pieces[0]);
    forall i | 0 <= i < |items| ensures Piece(items[i], pieces[1..][i]) {
      var i' := i + 1;
      assert ([it] + items)[i'] == items[i] && Piece(([it] + items)[i'], pieces[i']);
    }
    assert Splits(items, w[j..], pieces[1..]);
  }

  // ------------------------------------------------- one step of the pattern

  lemma HereEmpty(text: string)
    ensures MatchesHere("", text)
  {
    DenotesNil(text[..0]);
    assert MatchesTo("", text, 0);
  }

  lemma HereEnd(text: string)
    ensures MatchesHere("$", text) <==> text == ""
  {
    if text == "" {
      DenotesNil(text[..0]);
      assert MatchesTo("$", text, 0);
    }
    if MatchesHere("$", text) {
      var k: nat :| k <= |text| && MatchesTo("$", text, k);
      DenotesNil(text[..k]);
    }
  }

  lemma HereFirst(re: string, text: string, it: Item, n: nat, j: nat)
    requires n <= |re| && Parse(re) == Before(it, Parse(re[n..])) && j <= |text| && Piece(it, text[..j])
    requires MatchesHere(re[n..], text[j..])
    ensures MatchesHere(re, text)
  {
    var k: nat :| k <= |text[j..]| && MatchesTo(re[n..], text[j..], k);
    var w := text[..j + k];
    assert w[..j] == text[..j] && w[j..] == text[j..][..k];
    DenotesFirst(it, Parse(re[n..]).items, w, j);
    assert MatchesTo(re, text, j + k);
  }

  lemma HereSplit(re: string, text: string, it: Item, n: nat) returns (j: nat)
    requires n <= |re| && Parse(re) == Before(it, Parse(re[n..])) && MatchesHere(re, text)
    ensures j <= |text| && Piece(it, text[..j]) && MatchesHere(re[n..], text[j..])
  {
    var k: nat :| k <= |text| && MatchesTo(re, text, k);
    var w := text[..k];
    j := DenotesSplit(it, Parse(re[n..]).items, w);
    assert w[..j] == text[..j] && w[j..] == text[j..][..k - j];
    assert MatchesTo(re[n..], text[j..], k - j);
  }

  lemma HereOne(re: string, text: string)
    requires re != "" && Parse(re) == Before(One(re[0]), Parse(re[1..]))
    ensures MatchesHere(re, text) <==> text != "" && Fits(re[0], text[0]) && MatchesHere(re[1..], text[1..])
  {
    if MatchesHere(re, text) { var j := HereSplit(re, text, One(re[0]), 1); }
    if text != "" && Fits(re[0], text[0]) && MatchesHere(re[1..], text[1..]) { HereFirst(re, text, One(re[0]), 1, 1); }
  }

  /** c* followed by the rest matches after taking some first i characters. */
  ghost predicate StarFrom(c: char, rest: string, text: string, i: nat) {
    i <= |text| && Piece(Many(c), text[..i]) && MatchesHere(rest, text[i..])
  }

  lemma HereMany(re: string, text: string)
    requires |re| >= 2 && re[1] == '*'
    ensures MatchesHere(re, text) <==> exists i: nat | i <= |text| :: StarFrom(re[0], re[2..], text, i)
  {
    if MatchesHere(re, text) {
      var j := HereSplit(re, text, Many(re[0]), 2);
      assert StarFrom(re[0], re[2..], text, j);
    }
    if i: nat :| i <= |text| && StarFrom(re[0], re[2..], text, i) { HereFirst(re, text, Many(re[0]), 2, i); }
  }

  // ------------------------------------------------------------------- code

  /** matchhere: exactly the texts with a prefix in the pattern's language. */
  method MatchHere(re: string, text: string) returns (r: bool)
    ensures r <==> MatchesHere(re, text)
    decreases |re|, 0
  {
    if re == "" {
      HereEmpty(text);
      return true;
    }
    if |re| >= 2 && re[1] == '*' {
      HereMany(re, text);
      r := MatchStar(re[0], re[2..], text);
      return;
    }
    if re == "$" {
      HereEnd(text);
      return text == "";
    }
    HereOne(re, text);
    if text != "" && (re[0] == '.' || re[0] == text[0]) {
      r := MatchHere(re[1..], text[1..]);
      return;
    }
    return false;
  }

  /** matchstar. */
  method MatchStar(c: char, re: string, text: string) returns (r: bool)
    ensures r <==> exists i: nat | i <= |text| :: StarFrom(c, re, text, i)
    decreases |re|, 1
  {
    var i := 0;
    while true
      invariant i <= |text| && Piece(Many(c), text[..i])
      invariant forall j: nat | j < i :: !StarFrom(c, re, text, j)
      decreases |text| - i
    {
      r := MatchHere(re, text[i..]);
      if r {
        assert StarFrom(c, re, text, i);
        return;
      }
      assert !StarFrom(c, re, text, i);
      if i == |text| || !(text[i] == c || c == '.') {
        break;
      }
      i := i + 1;
    }
    forall j: nat | j <= |text| ensures !StarFrom(c, re, text, j) {
      if j > i { assert text[..j][i] == text[i]; }
    }
  }

  /** match. */
  method Match(re: string, text: string) returns (r: bool)
    ensures r <==> Matches(re, text)
  {
    if re != "" && re[0] == '^' {
      r := MatchHere(re[1..], text);
      return;
    }
    var i := 0;
    while true
      invariant i <= |text| && forall j: nat | j < i :: !MatchesHere(re, text[j..])
      decreases |text| - i
    {
      r := MatchHere(re, text[i..]);
      if r || i == |text| {
        return;
      }
      i := i + 1;
    }
  }

  // ------------------------------------------------------------ line by line

  const BUFSIZE := 1024

  /** The first newline that strchr sees, or the length of s: a NUL hides the
      rest. */
  function Newline(s: string): (i: nat)
    ensures i <= |s| && (i < |s| ==> s[i] == '\n')
    ensures '\0' !in s[..i] || i == |s|
  {
    if s == "" || s[0] == '\0' then |s| else if s[0] == '\n' then 0
    else
      var i := Newline(s[1..]);
      assert s[..i + 1] == [s[0]] + s[1..][..i];
      i + 1
  }

  /** What grep prints for an input: the matching lines that end in a newline, up
      to the first line that is too long for the buffer or has a NUL. */
  ghost function Selected(re: string, s: string): string {
    var i := Newline(s);
    if i == |s| || i >= BUFSIZE - 1 then ""
    else (if Matches(re, s[..i]) then s[..i + 1] else "") + Selected(re, s[i + 1..])
  }

  /** Where strchr stops in a longer string. */
  lemma {:induction false} NewlineAppend(a: string, b: string)
    ensures Newline(a) < |a| ==> Newline(a + b) == Newline(a)
    ensures Newline(a) == |a| ==> Newline(a + b) == if '\0' in a then |a + b| else |a| + Newline(b)
  {
    if a == "" {
      assert a + b == b;
    } else {
      assert (a + b)[1..] == a[1..] + b;
      NewlineAppend(a[1..], b);
      assert '\0' in a <==> a[0] == '\0' || '\0' in a[1..];
    }
  }

  /** The first line of the buffer, printed or not. */
  lemma SelectedLine(re: string, left: string, rest: string)
    requires Newline(left) < |left| <= BUFSIZE - 1
    ensures var i := Newline(left);
      Selected(re, left + rest)
      == (if Matches(re, left[..i]) then left[..i + 1] else "") + Selected(re, left[i + 1..] + rest)
  {
    var i, s := Newline(left), left + rest;
    NewlineAppend(left, rest);
    Cuts(left, rest, i);
    assert i < |s| && i < BUFSIZE - 1;
  }

  lemma Cuts(a: string, b: string, i: nat)
    requires i < |a|
    ensures (a + b)[..i] == a[..i] && (a + b)[..i + 1] == a[..i + 1] && (a + b)[i + 1..] == a[i + 1..] + b
  {
  }

  lemma Prints(re: string, left: string, rest: string, out: string, r: bool)
    requires Newline(left) < |left| <= BUFSIZE - 1 && (r <==> Matches(re, left[..Newline(left)]))
    ensures var i := Newline(left);
      (if r then out + left[..i + 1] else out) + Selected(re, left[i + 1..] + rest) == out + Selected(re, left + rest)
  {
    SelectedLine(re, left, rest);
    var i := Newline(left);
    var more := Selected(re, left[i + 1..] + rest);
    if r {
      assert (out + left[..i + 1]) + more == out + (left[..i + 1] + more);
    } else {
      assert "" + more == more;
    }
  }

  /** A buffer that has no line left selects no more, if it is full or the input
      is at its end. */
  lemma NothingLeft(re: string, buf: string, rest: string)
    requires Newline(buf) == |buf| && (rest == "" || |buf| >= BUFSIZE - 1)
    ensures Selected(re, buf + rest) == ""
  {
    NewlineAppend(buf, rest);
    assert rest == "" ==> buf + rest == buf;
  }

  /** grep on one file: `input` is what read returns before it reports the end or
      an error.  read may return any number of bytes that fits: `sizes` is its
      choice on each call.  The output does not depend on it. */
  method GrepFile(re: string, input: string, sizes: seq<nat>) returns (out: string)
    ensures out == Selected(re, input)
  {
    var buf, rest, calls := "", input, 0;
    out := "";
    assert "" + input == input;
    while true
      invariant |buf| <= BUFSIZE - 1 && Newline(buf) == |buf|
      invariant out + Selected(re, buf + rest) == Selected(re, input)
      decreases |rest|
    {
      var room := BUFSIZE - |buf| - 1;
      var n := if calls < |sizes| && sizes[calls] > 0 then sizes[calls] else room;
      n := if n > room then room else n;
      n := if n > |rest| then |rest| else n;
      calls := calls + 1;
      if n == 0 {
        break;
      }
      ghost var before := buf + rest;
      buf, rest := buf + rest[..n], rest[n..];
      assert before == buf + rest;
      out, buf := PrintLines(re, buf, rest, out);
    }
    NothingLeft(re, buf, rest);
  }

  /** The inner loop: prints the matching lines of the buffer and leaves what is
      after the last newline that strchr sees. */
  method PrintLines(re: string, buf: string, ghost rest: string, out0: string) returns (out: string, left: string)
    requires |buf| <= BUFSIZE - 1
    ensures |left| <= |buf| && Newline(left) == |left|
    ensures out + Selected(re, left + rest) == out0 + Selected(re, buf + rest)
  {
    out, left := out0, buf;
    while Newline(left) < |left|
      invariant |left| <= |buf|
      invariant out + Selected(re, left + rest) == out0 + Selected(re, buf + rest)
      decreases |left|
    {
      var i := Newline(left);
      var r := Match(re, left[..i]);
      Prints(re, left, rest, out, r);
      if r {
        out := out + left[..i + 1];
      }
      left := left[i + 1..];
    }
  }
}
