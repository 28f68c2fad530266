/** Test names: how they are normalized, and what dropping the last word of one does. */
module TestNames {

  /** The white space of Python text: what its split, strip and regular expressions agree on. */
  predicate IsSpace(c: char) {
    || c == ' ' || '\t' <= c <= '\r' || '\U{1C}' <= c <= '\U{1F}'
    || c in {'\U{85}', '\U{A0}', '\U{1680}', '\U{2028}', '\U{2029}', '\U{202F}', '\U{205F}', '\U{3000}'}
    || '\U{2000}' <= c <= '\U{200A}'
  }

  /** By code point. */
  lemma {:induction false} SpaceCodes(c: char)
    ensures IsSpace(c) <==> var n := c as int;
                            || 9 <= n <= 13 || 28 <= n <= 32 || n == 133 || n == 160 || n == 5760
                            || 8192 <= n <= 8202 || n == 8232 || n == 8233 || n == 8239 || n == 8287 || n == 12288
  {
  }

  // ----- normalize -----

  /** First index of c in s with no newline before it, or |s| when there is none. */
  function ClosingIndex(s: string, c: char): (i: nat)
    ensures i <= |s|
  {
    if s == "" then 0
    else if s[0] == c then 0
    else if s[0] == '\n' then |s|
    else 1 + ClosingIndex(s[1..], c)
  }

  /** Removes every shortest bracketed part, square or curly, that does not cross a line end. */
  function RemoveTags(s: string): string
    decreases |s|
  {
    if s == "" then ""
    else
      var i := if s[0] == '[' then 1 + ClosingIndex(s[1..], ']')
               else if s[0] == '{' then 1 + ClosingIndex(s[1..], '}')
               else |s|;
      if i < |s| then RemoveTags(s[i + 1..]) else [s[0]] + RemoveTags(s[1..])
  }

  lemma {:induction false} ClosesAt(b: string, close: char, rest: string)
    requires close != '\n' && forall i :: 0 <= i < |b| ==> b[i] != close && b[i] != '\n'
    ensures ClosingIndex(b + [close] + rest, close) == |b|
  {
    var s := b + [close] + rest;
    if b != "" {
      assert s[1..] == b[1..] + [close] + rest;
      ClosesAt(b[1..], close, rest);
    }
  }

  lemma {:induction false} NeverCloses(s: string, close: char)
    requires close != '\n'
    requires forall i :: 0 <= i < |s| && s[i] == close ==> '\n' in s[..i]
    ensures ClosingIndex(s, close) == |s|
  {
    if s != "" && s[0] != '\n' {
      assert '\n' !in s[..0];
      forall i | 0 <= i < |s[1..]| && s[1..][i] == close ensures '\n' in s[1..][..i] {
        assert s[..i + 1] == [s[0]] + s[1..][..i];
      }
      NeverCloses(s[1..], close);
    }
  }

  /** A tag goes, with its brackets, and what follows is treated in the same way. */
  lemma {:induction false} TagGoes(b: string, rest: string)
    requires '\n' !in b
    ensures ']' !in b ==> RemoveTags("[" + b + "]" + rest) == RemoveTags(rest)
    ensures '}' !in b ==> RemoveTags("{" + b + "}" + rest) == RemoveTags(rest)
  {
    if ']' !in b {
      var s := "[" + b + "]" + rest;
      ClosesAt(b, ']', rest);
      assert s[1..] == b + "]" + rest && s[1 + |b| + 1..] == rest;
    }
    if '}' !in b {
      var s := "{" + b + "}" + rest;
      ClosesAt(b, '}', rest);
      assert s[1..] == b + "}" + rest && s[1 + |b| + 1..] == rest;
    }
  }

  /** Any other character stays: one that opens no tag, or an opening bracket that is not closed on its line. */
  lemma {:induction false} OtherStays(c: char, rest: string)
    requires c == '[' ==> forall i :: 0 <= i < |rest| && rest[i] == ']' ==> '\n' in rest[..i]
    requires c == '{' ==> forall i :: 0 <= i < |rest| && rest[i] == '}' ==> '\n' in rest[..i]
    ensures RemoveTags([c] + rest) == [c] + RemoveTags(rest)
  {
    assert ([c] + rest)[1..] == rest;
    if c == '[' { NeverCloses(rest, ']'); }
    if c == '{' { NeverCloses(rest, '}'); }
  }

  function DropSpaces(s: string): (r: string)
    ensures |r| <= |s| && (r == "" || !IsSpace(r[0]))
  {
    if s != "" && IsSpace(s[0]) then DropSpaces(s[1..]) else s
  }

  /** Replaces each run of white space by one space. */
  function Collapse(s: string): string
    decreases |s|
  {
    if s == "" then ""
    else if IsSpace(s[0]) then " " + Collapse(DropSpaces(s[1..]))
    else [s[0]] + Collapse(s[1..])
  }

  function TrimRight(s: string): (r: string)
    ensures r <= s && (r == "" || !IsSpace(r[|r| - 1]))
  {
    if s != "" && IsSpace(s[|s| - 1]) then TrimRight(s[..|s| - 1]) else s
  }

  function Strip(s: string): string {
    TrimRight(DropSpaces(s))
  }

  function Normalize(name: string): string {
    Strip(Collapse(RemoveTags(name)))
  }

  // ----- words -----

  function WordLength(s: string): (n: nat)
    ensures n <= |s|
    ensures forall i :: 0 <= i < n ==> !IsSpace(s[i])
    ensures n < |s| ==> IsSpace(s[n])
  {
    if s == "" || IsSpace(s[0]) then 0 else 1 + WordLength(s[1..])
  }

  function Words(s: string): seq<string>
    decreases |s|
  {
    if s == "" then []
    else if IsSpace(s[0]) then Words(s[1..])
    else [s[..WordLength(s)]] + Words(s[WordLength(s)..])
  }

  function Join(ws: seq<string>): string {
    if ws == [] then "" else if |ws| == 1 then ws[0] else ws[0] + " " + Join(ws[1..])
  }

  /** The name without its last word. */
  function Shorten(name: string): string {
    var ws := Words(name);
    Join(if ws == [] then [] else ws[..|ws| - 1])
  }

  /** Single spaces between words and none at the ends. */
  predicate Normal(name: string) {
    name == Join(Words(name))
  }

  predicate IsWord(w: string) {
    w != "" && forall i :: 0 <= i < |w| ==> !IsSpace(w[i])
  }

  ghost predicate AllWords(ws: seq<string>) {
    forall i :: 0 <= i < |ws| ==> IsWord(ws[i])
  }

  /** p is what remains of r once one or more trailing words are gone. */
  predicate DropsTo(r: string, p: string) {
    p == "" || (|p| < |r| && p <= r && r[|p|] == ' ')
  }

  lemma {:induction false} WordsAreWords(s: string)
    ensures AllWords(Words(s))
    decreases |s|
  {
    if s != "" {
      if IsSpace(s[0]) { WordsAreWords(s[1..]); } else { WordsAreWords(s[WordLength(s)..]); }
    }
  }

  lemma {:induction false} WordsOfJoin(ws: seq<string>)
    requires AllWords(ws)
    ensures Words(Join(ws)) == ws
  {
    if |ws| == 1 {
      var w := ws[0];
      assert w[..WordLength(w)] == w;
      assert Words(w) == [w] + Words("");
    } else if |ws| > 1 {
      WordsOfJoin(ws[1..]);
      WordThenRest(ws[0], ' ', Join(ws[1..]));
    }
  }

  /** White space of any kind ends a word. */
  lemma {:induction false} WordThenRest(w: string, c: char, rest: string)
    requires IsWord(w) && IsSpace(c)
    ensures Words(w + [c] + rest) == [w] + Words(rest)
  {
    var s := w + [c] + rest;
    assert forall i :: 0 <= i < |w| ==> s[i] == w[i];
    assert s[|w|] == c;
    assert !IsSpace(s[0]) && WordLength(s) == |w|;
    assert s[..|w|] == w && s[|w|..] == [c] + rest;
    assert s[|w|..][1..] == rest;
  }

  lemma {:induction false} JoinSnoc(ws: seq<string>, w: string)
    requires ws != []
    ensures Join(ws + [w]) == Join(ws) + " " + w
  {
    assert (ws + [w])[1..] == ws[1..] + [w];
    if |ws| == 1 {
      assert Join([w]) == w;
    } else {
      JoinSnoc(ws[1..], w);
    }
  }

  lemma {:induction false} ShortenNormal(n: string)
    requires Normal(n)
    ensures Normal(Shorten(n))
    ensures DropsTo(n, Shorten(n))
    ensures n != "" ==> |Shorten(n)| < |n|
    ensures forall p :: DropsTo(n, p) ==> p <= Shorten(n)
  {
    var ws := Words(n);
    WordsAreWords(n);
    if ws != [] {
      var front, w := ws[..|ws| - 1], ws[|ws| - 1];
      assert ws == front + [w];
      WordsOfJoin(front);
      if front == [] {
        assert n == w;
      } else {
        JoinSnoc(front, w);
        assert n == Shorten(n) + " " + w;
      }
      forall p | DropsTo(n, p) ensures p <= Shorten(n) {
        assert forall i :: |n| - |w| <= i < |n| ==> n[i] == w[i - (|n| - |w|)];
      }
    }
  }

  lemma {:induction false} FewerWordsDrop(ws: seq<string>, k: nat)
    requires AllWords(ws) && k < |ws|
    ensures DropsTo(Join(ws), Join(ws[..k]))
  {
    var front, w := ws[..|ws| - 1], ws[|ws| - 1];
    assert ws == front + [w];
    if front != [] { JoinSnoc(front, w); }
    if k < |front| {
      FewerWordsDrop(front, k);
      assert front[..k] == ws[..k];
    } else {
      assert ws[..k] == front;
    }
  }

  lemma {:induction false} DropsToFewerWords(ws: seq<string>, p: string) returns (k: nat)
    requires AllWords(ws) && DropsTo(Join(ws), p) && p != ""
    ensures k < |ws| && p == Join(ws[..k])
  {
    var front, w := ws[..|ws| - 1], ws[|ws| - 1];
    assert ws == front + [w];
    if front != [] { JoinSnoc(front, w); }
    var f := Join(front);
    assert forall i :: 0 <= i < |w| ==> Join(ws)[|Join(ws)| - |w| + i] == w[i];
    assert |p| <= |f|;
    k := |front|;
    if |p| < |f| {
      assert DropsTo(f, p);
      k := DropsToFewerWords(front, p);
      assert front[..k] == ws[..k];
    } else {
      assert ws[..k] == front && p == f;
    }
  }

  /** p joins the first words of r, not all of them. */
  ghost predicate FewerWords(r: string, p: string) {
    exists k :: 0 <= k < |Words(r)| && p == Join(Words(r)[..k])
  }

  /** DropsTo in terms of words. */
  lemma {:induction false} DropsToIsFewerWords(r: string, p: string)
    requires Normal(r)
    ensures DropsTo(r, p) <==> p == "" || FewerWords(r, p)
  {
    WordsAreWords(r);
    var ws := Words(r);
    if p != "" && DropsTo(r, p) {
      var k := DropsToFewerWords(ws, p);
      assert p == Join(Words(r)[..k]);
    }
    if FewerWords(r, p) {
      var k :| 0 <= k < |Words(r)| && p == Join(Words(r)[..k]);
      FewerWordsDrop(ws, k);
    }
  }

  // ----- normalize produces normal names -----

  lemma {:induction false} DropSpacesWords(s: string)
    ensures Words(DropSpaces(s)) == Words(s)
  {
    if s != "" && IsSpace(s[0]) { DropSpacesWords(s[1..]); }
  }

  lemma {:induction false} CollapseWord(s: string, n: nat)
    requires n <= |s| && forall i :: 0 <= i < n ==> !IsSpace(s[i])
    ensures Collapse(s) == s[..n] + Collapse(s[n..])
  {
    if n > 0 {
      CollapseWord(s[1..], n - 1);
      assert s[1..][n - 1..] == s[n..];
      assert [s[0]] + s[1..][..n - 1] == s[..n];
    } else {
      assert s[0..] == s;
    }
  }

  lemma {:induction false} TrimRightAppend(a: string, b: string)
    ensures TrimRight(a + b) == if TrimRight(b) == "" then TrimRight(a) else a + TrimRight(b)
    decreases |b|
  {
    if b == "" {
      assert a + b == a;
    } else if IsSpace(b[|b| - 1]) {
      TrimRightAppend(a, b[..|b| - 1]);
      assert (a + b)[..|a + b| - 1] == a + b[..|b| - 1];
    }
  }

  lemma {:induction false} TrimRightKeepsHead(s: string)
    requires s != "" && !IsSpace(s[0])
    ensures TrimRight(s) != ""
  {
    if IsSpace(s[|s| - 1]) { TrimRightKeepsHead(s[..|s| - 1]); }
  }

  /** The word case of StripCollapse: d is the text after the white space that follows w. */
  lemma {:induction false} TrimWordAndTail(w: string, d: string)
    requires IsWord(w)
    requires d == "" || !IsSpace(d[0])
    ensures TrimRight(w + (" " + Collapse(d))) == if d == "" then w else w + (" " + Strip(Collapse(d)))
  {
    TrimRightAppend(" ", Collapse(d));
    TrimRightAppend(w, " " + Collapse(d));
    if d != "" {
      CollapseWord(d, 1);
      TrimRightKeepsHead(Collapse(d));
    }
  }

  lemma {:induction false} StripCollapse(s: string)
    ensures Strip(Collapse(s)) == Join(Words(s))
    decreases |s|
  {
    if s == "" {
    } else if IsSpace(s[0]) {
      var d := DropSpaces(s[1..]);
      DropSpacesWords(s[1..]);
      StripCollapse(d);
      assert (" " + Collapse(d))[1..] == Collapse(d);
    } else {
      StripCollapseWord(s);
    }
  }

  /** The first word of s, and the text d after the white space that follows it. */
  lemma {:induction false} HeadWord(s: string) returns (w: string, d: string, more: bool)
    requires s != "" && !IsSpace(s[0])
    ensures IsWord(w) && |d| < |s| && (d == "" || !IsSpace(d[0]))
    ensures !more ==> Collapse(s) == w && Words(s) == [w]
    ensures more ==> Collapse(s) == w + (" " + Collapse(d)) && Words(s) == [w] + Words(d)
  {
    var n := WordLength(s);
    var rest := s[n..];
    w := s[..n];
    CollapseWord(s, n);
    d, more := "", rest != "";
    if more {
      d := DropSpaces(rest[1..]);
      DropSpacesWords(rest[1..]);
    }
  }

  lemma {:induction false} StripCollapseWord(s: string)
    requires s != "" && !IsSpace(s[0])
    ensures Strip(Collapse(s)) == Join(Words(s))
    decreases |s|, 0
  {
    CollapseWord(s, 1);
    var w, d, more := HeadWord(s);
    if more {
      StripCollapse(d);
      TrimWordAndTail(w, d);
      JoinCons(w, Words(d));
    }
  }

  lemma {:induction false} JoinCons(w: string, ws: seq<string>)
    ensures Join([w] + ws) == if ws == [] then w else w + (" " + Join(ws))
  {
    assert ([w] + ws)[1..] == ws;
    assert w + " " + Join(ws) == w + (" " + Join(ws));
  }

  lemma {:induction false} NormalizeShape(name: string)
    ensures Normalize(name) == Join(Words(RemoveTags(name)))
    ensures Normal(Normalize(name))
  {
    StripCollapse(RemoveTags(name));
    WordsAreWords(RemoveTags(name));
    WordsOfJoin(Words(RemoveTags(name)));
  }
}
