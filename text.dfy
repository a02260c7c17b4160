/** The string operations the pages rely on, with JavaScript's meaning:
    `trim()`, `split(",")`, `split(/\s+/)`, `join(sep)`, `toLowerCase()`,
    `toUpperCase()` and `includes(needle)`, plus the page-wide idiom
    `.split(",").map((s) => s.trim()).filter(Boolean)`. */
module Text {
  import opened Seqs

  /** The ECMAScript WhiteSpace and LineTerminator code points: exactly what
      `trim()` removes and what the regular-expression class `\s` matches. */
  predicate IsSpace(c: char)
  {
    || c == '\t' || c == '\n' || c == '\U{000B}' || c == '\U{000C}' || c == '\r' || c == ' '
    || c == '\U{00A0}' || c == '\U{1680}' || ('\U{2000}' <= c <= '\U{200A}')
    || c == '\U{2028}' || c == '\U{2029}' || c == '\U{202F}' || c == '\U{205F}'
    || c == '\U{3000}' || c == '\U{FEFF}'
  }

  /** Neither end of `s` is white space. */
  predicate IsTrimmed(s: string)
  {
    s == [] || (!IsSpace(s[0]) && !IsSpace(s[|s| - 1]))
  }

  /** Drops the leading white space. What it keeps is stated by TrimStartSpec. */
  function TrimStart(s: string): (r: string)
    ensures |r| <= |s|
  {
    if s != [] && IsSpace(s[0]) then TrimStart(s[1..]) else s
  }

  /** The result is a suffix of `s`, everything dropped is white space, and the
      result does not start with white space. */
  lemma {:induction false} TrimStartSpec(s: string)
    ensures TrimStart(s) == s[|s| - |TrimStart(s)|..]
    ensures forall k :: 0 <= k < |s| - |TrimStart(s)| ==> IsSpace(s[k])
    ensures TrimStart(s) == [] || !IsSpace(TrimStart(s)[0])
  {
    if s != [] && IsSpace(s[0]) {
      TrimStartSpec(s[1..]);
      var r := TrimStart(s);
      assert r == TrimStart(s[1..]);
      assert s[1..][|s| - 1 - |r|..] == s[|s| - |r|..];
      forall k | 0 <= k < |s| - |r|
        ensures IsSpace(s[k])
      {
        if k > 0 {
          assert s[k] == s[1..][k - 1];
        }
      }
    }
  }

  /** Drops the trailing white space. What it keeps is stated by TrimEndSpec. */
  function TrimEnd(s: string): (r: string)
    ensures |r| <= |s|
  {
    if s != [] && IsSpace(s[|s| - 1]) then TrimEnd(s[..|s| - 1]) else s
  }

  /** The result is a prefix of `s`, everything dropped is white space, and the
      result does not end with white space. */
  lemma {:induction false} TrimEndSpec(s: string)
    ensures TrimEnd(s) == s[..|TrimEnd(s)|]
    ensures forall k :: |TrimEnd(s)| <= k < |s| ==> IsSpace(s[k])
    ensures TrimEnd(s) == [] || !IsSpace(TrimEnd(s)[|TrimEnd(s)| - 1])
  {
    if s != [] && IsSpace(s[|s| - 1]) {
      var p := s[..|s| - 1];
      TrimEndSpec(p);
      var r := TrimEnd(s);
      assert r == TrimEnd(p);
      assert p[..|r|] == s[..|r|];
      forall k | |r| <= k < |s|
        ensures IsSpace(s[k])
      {
        if k < |s| - 1 {
          assert s[k] == p[k];
        }
      }
    }
  }

  /** `s.trim()`: the result has no white space at either end, is blank exactly
      when `s` is all white space, and every character of it comes from `s`. */
  function Trim(s: string): (r: string)
    ensures |r| <= |s|
    ensures IsTrimmed(r)
  {
    var t := TrimStart(s);
    var r := TrimEnd(t);
    TrimStartSpec(s);
    TrimEndSpec(t);
    assert r != [] ==> !IsSpace(r[0]) by {
      if r != [] { assert r[0] == t[0]; }
    }
    r
  }

  /** The trim is blank exactly when `s` is all white space. */
  lemma TrimBlank(s: string)
    ensures Trim(s) == [] <==> forall k :: 0 <= k < |s| ==> IsSpace(s[k])
  {
    var t := TrimStart(s);
    TrimStartSpec(s);
    TrimEndSpec(t);
    assert Trim(s) == TrimEnd(t);
    assert TrimEnd(t) == [] ==> t == [];
  }

  /** Every character of the trim comes from `s`. */
  lemma TrimChars(s: string)
    ensures forall c :: c in Trim(s) ==> c in s
  {
    var t := TrimStart(s);
    var r := TrimEnd(t);
    TrimStartSpec(s);
    TrimEndSpec(t);
    assert r == Trim(s);
    forall c | c in r ensures c in s {
      var i :| 0 <= i < |r| && r[i] == c;
      assert t[i] == c;
      assert s[|s| - |t| + i] == c;
    }
  }

  /** A trimmed string is its own trim. */
  lemma TrimTrimmed(s: string)
    requires IsTrimmed(s)
    ensures Trim(s) == s
  {
  }

  /** `trim()` is idempotent. */
  lemma TrimIdempotent(s: string)
    ensures Trim(Trim(s)) == Trim(s)
  {
    TrimTrimmed(Trim(s));
  }

  /** Leading white space does not change the trim. */
  lemma TrimLeadingSpace(c: char, s: string)
    requires IsSpace(c)
    ensures Trim([c] + s) == Trim(s)
  {
    assert ([c] + s)[1..] == s;
  }

  /** `arr.join(sep)` */
  function Join(xs: seq<string>, sep: string): (r: string)
    ensures xs == [] ==> r == ""
    ensures |xs| == 1 ==> r == xs[0]
  {
    if xs == [] then "" else if |xs| == 1 then xs[0] else xs[0] + sep + Join(xs[1..], sep)
  }

  /** `s.split(sep)` for a one-character separator: at least one piece, and no
      piece holds the separator. */
  function Split(s: string, sep: char): (r: seq<string>)
    ensures |r| >= 1
    ensures forall p :: p in r ==> sep !in p
  {
    if s == [] then [""]
    else
      var rest := Split(s[1..], sep);
      if s[0] == sep then
        [""] + rest
      else
        var r := [[s[0]] + rest[0]] + rest[1..];
        assert r[1..] == rest[1..];
        r
  }

  /** Joining the pieces back with the separator gives `s`. */
  lemma {:induction false} JoinSplit(s: string, sep: char)
    ensures Join(Split(s, sep), [sep]) == s
  {
    if s != [] {
      var rest := Split(s[1..], sep);
      JoinSplit(s[1..], sep);
      if s[0] == sep {
        assert Split(s, sep) == [""] + rest;
        assert ([""] + rest)[1..] == rest;
      } else {
        var r := [[s[0]] + rest[0]] + rest[1..];
        assert Split(s, sep) == r;
        assert r[1..] == rest[1..];
        assert |rest| > 1 ==> Join(rest, [sep]) == rest[0] + [sep] + Join(rest[1..], [sep]);
        assert s == [s[0]] + s[1..];
      }
    }
  }

  /** A separator-free string is a single piece. */
  lemma {:induction false} SplitNoSep(p: string, sep: char)
    requires sep !in p
    ensures Split(p, sep) == [p]
  {
    if p != [] {
      SplitNoSep(p[1..], sep);
      assert [p[0]] + p[1..] == p;
    }
  }

  /** The first separator ends the first piece. */
  lemma {:induction false} SplitCons(p: string, sep: char, rest: string)
    requires sep !in p
    ensures Split(p + [sep] + rest, sep) == [p] + Split(rest, sep)
  {
    var s := p + [sep] + rest;
    if p == [] {
      assert s[1..] == rest;
    } else {
      SplitCons(p[1..], sep, rest);
      assert s[1..] == p[1..] + [sep] + rest;
      assert [p[0]] + p[1..] == p;
    }
  }

  /** Splitting undoes joining when no piece holds the separator. */
  lemma {:induction false} SplitJoin(xs: seq<string>, sep: char)
    requires |xs| >= 1
    requires forall x :: x in xs ==> sep !in x
    ensures Split(Join(xs, [sep]), sep) == xs
  {
    if |xs| == 1 {
      SplitNoSep(xs[0], sep);
    } else {
      SplitJoin(xs[1..], sep);
      SplitCons(xs[0], sep, Join(xs[1..], [sep]));
      assert [xs[0]] + xs[1..] == xs;
    }
  }

  /** `arr.map((s) => s.trim())` */
  function TrimAll(xs: seq<string>): (r: seq<string>)
    ensures |r| == |xs|
    ensures forall i :: 0 <= i < |xs| ==> r[i] == Trim(xs[i])
  {
    seq(|xs|, i requires 0 <= i < |xs| => Trim(xs[i]))
  }

  lemma TrimAllAppend(a: seq<string>, b: seq<string>)
    ensures TrimAll(a + b) == TrimAll(a) + TrimAll(b)
  {
  }

  /** `Boolean` as a filter on strings: only the empty string is falsy. */
  predicate NonEmpty(s: string)
  {
    s != ""
  }

  /** `String(s).split(",").map((s) => s.trim()).filter(Boolean)`: every piece is
      non-empty, trimmed and comma-free. */
  function CsvPieces(s: string): (r: seq<string>)
    ensures forall p :: p in r ==> p != "" && IsTrimmed(p) && ',' !in p
  {
    var trimmed := TrimAll(Split(s, ','));
    TrimAllCommaFree(Split(s, ','));
    FilterSpec(trimmed, NonEmpty);
    Filter(trimmed, NonEmpty)
  }

  /** Trimming comma-free pieces leaves them comma-free and trimmed. */
  lemma TrimAllCommaFree(pieces: seq<string>)
    requires forall p :: p in pieces ==> ',' !in p
    ensures forall p :: p in TrimAll(pieces) ==> IsTrimmed(p) && ',' !in p
  {
    var trimmed := TrimAll(pieces);
    forall p | p in trimmed
      ensures IsTrimmed(p) && ',' !in p
    {
      var i :| 0 <= i < |trimmed| && trimmed[i] == p;
      assert pieces[i] in pieces;
      TrimChars(pieces[i]);
    }
  }

  /** The pieces of one comma-free field. */
  lemma CsvSingle(p: string)
    requires ',' !in p
    ensures CsvPieces(p) == if Trim(p) == "" then [] else [Trim(p)]
  {
    SplitNoSep(p, ',');
    var t := Trim(p);
    assert TrimAll([p]) == [t];
    assert Filter([t], NonEmpty) == if t == "" then [] else [t];
  }

  /** The first comma ends the first piece. */
  lemma CsvCons(p: string, rest: string)
    requires ',' !in p
    ensures CsvPieces(p + [','] + rest) == (if Trim(p) == "" then [] else [Trim(p)]) + CsvPieces(rest)
  {
    SplitCons(p, ',', rest);
    TrimAllAppend([p], Split(rest, ','));
    FilterAppend([Trim(p)], TrimAll(Split(rest, ',')), NonEmpty);
  }

  /** A blank before the first piece is trimmed away. */
  lemma CsvLeadingSpace(z: string)
    ensures CsvPieces([' '] + z) == CsvPieces(z)
  {
    var s := [' '] + z;
    assert s[1..] == z;
    var sz := Split(z, ',');
    assert Split(s, ',') == [[' '] + sz[0]] + sz[1..];
    TrimLeadingSpace(' ', sz[0]);
    assert TrimAll(Split(s, ',')) == TrimAll(sz);
  }

  lemma CsvEmpty()
    ensures CsvPieces("") == []
  {
    assert Split("", ',') == [""];
    assert TrimAll([""]) == [""];
  }

  lemma JoinCsvCons(xs: seq<string>)
    requires |xs| >= 2
    ensures Join(xs, ", ") == xs[0] + [','] + ([' '] + Join(xs[1..], ", "))
  {
  }

  /** A tag that survives the CSV pieces unchanged: non-empty, trimmed and
      comma-free. */
  predicate CleanTag(x: string)
  {
    x != "" && IsTrimmed(x) && ',' !in x
  }

  /** One clean tag followed by ", " and the rest. */
  lemma CsvHead(head: string, tail: string)
    requires CleanTag(head)
    ensures CsvPieces(head + [','] + ([' '] + tail)) == [head] + CsvPieces(tail)
  {
    CsvCons(head, [' '] + tail);
    TrimTrimmed(head);
    CsvLeadingSpace(tail);
  }

  /** Two clean tags separated by a bare comma are two pieces. */
  lemma CsvTwo(a: string, b: string)
    requires CleanTag(a) && CleanTag(b)
    ensures CsvPieces(a + [','] + b) == [a, b]
  {
    assert [a] + [b] == [a, b];
    TrimTrimmed(a);
    TrimTrimmed(b);
    CsvSingle(b);
    CsvCons(a, b);
  }

  /** Joining clean tags with ", " and splitting the result back as a CSV field
      gives the tags back. */
  lemma {:induction false} CsvRoundTrip(xs: seq<string>)
    requires forall i :: 0 <= i < |xs| ==> CleanTag(xs[i])
    ensures CsvPieces(Join(xs, ", ")) == xs
  {
    if xs == [] {
      CsvEmpty();
      assert Join(xs, ", ") == "";
    } else if |xs| == 1 {
      assert xs == [xs[0]];
      assert CleanTag(xs[0]);
      CsvSingle(xs[0]);
      TrimTrimmed(xs[0]);
    } else {
      var tail := xs[1..];
      assert CleanTag(xs[0]);
      assert forall i :: 0 <= i < |tail| ==> CleanTag(tail[i]) by {
        forall i | 0 <= i < |tail| ensures CleanTag(tail[i]) {
          assert tail[i] == xs[i + 1];
        }
      }
      assert [xs[0]] + tail == xs;
      var j := Join(tail, ", ");
      JoinCsvCons(xs);
      assert Join(xs, ", ") == xs[0] + [','] + ([' '] + j);
      CsvHead(xs[0], j);
      CsvRoundTrip(tail);
      assert CsvPieces(j) == tail;
      assert CsvPieces(Join(xs, ", ")) == [xs[0]] + tail;
    }
  }

  /** `s.split(/\s+/)`: pieces separated by maximal runs of white space. */
  function SplitWs(s: string): (r: seq<string>)
    ensures |r| >= 1
    decreases |s|
  {
    if s == [] then [""]
    else if IsSpace(s[0]) then [""] + SplitWs(TrimStart(s[1..]))
    else
      var rest := SplitWs(s[1..]);
      [[s[0]] + rest[0]] + rest[1..]
  }

  /** A word with no white space runs up to the first white space. */
  lemma {:induction false} SplitWsWord(w: string, rest: string)
    requires w != [] && forall c :: c in w ==> !IsSpace(c)
    requires rest != [] && IsSpace(rest[0])
    ensures SplitWs(w + rest) == [w] + SplitWs(TrimStart(rest[1..]))
  {
    var s := w + rest;
    var after := SplitWs(TrimStart(rest[1..]));
    var tailParts := SplitWs(s[1..]);
    assert SplitWs(s) == [[w[0]] + tailParts[0]] + tailParts[1..] by {
      assert w[0] in w;
      assert s[0] == w[0];
    }
    if |w| > 1 {
      assert tailParts[0] == w[1..] && tailParts[1..] == after by {
        assert s[1..] == w[1..] + rest;
        assert w[1] in w;
        SplitWsWord(w[1..], rest);
      }
      assert [w[0]] + w[1..] == w;
    } else {
      assert tailParts[0] == "" && tailParts[1..] == after by {
        assert s[1..] == rest;
      }
      assert [w[0]] + "" == w;
    }
  }

  /** A non-empty word with no white space is a single piece. */
  lemma {:induction false} SplitWsSingle(w: string)
    requires w != [] && forall c :: c in w ==> !IsSpace(c)
    ensures SplitWs(w) == [w]
  {
    assert w[0] in w;
    var tailParts := SplitWs(w[1..]);
    assert SplitWs(w) == [[w[0]] + tailParts[0]] + tailParts[1..];
    if |w| > 1 {
      assert w[1] in w;
      SplitWsSingle(w[1..]);
      assert [w[0]] + w[1..] == w;
    } else {
      assert w[1..] == [];
      assert tailParts == [""];
      assert [w[0]] + "" == w;
    }
  }

  /** `w` holds no white space. */
  predicate SpaceFree(w: string)
  {
    forall c :: c in w ==> !IsSpace(c)
  }

  /** `g` is a non-empty run of white space. */
  predicate SpaceRun(g: string)
  {
    g != [] && forall c :: c in g ==> IsSpace(c)
  }

  /** The pieces put back together with `runs[i]` between pieces i and i+1. */
  function Glue(pieces: seq<string>, runs: seq<string>): string
    requires |pieces| == |runs| + 1
  {
    if runs == [] then pieces[0] else pieces[0] + runs[0] + Glue(pieces[1..], runs[1..])
  }

  /** The index of the first white space in `s`, or `|s|` when there is none. */
  function WordEnd(s: string): (n: nat)
    ensures n <= |s|
    ensures forall k :: 0 <= k < n ==> !IsSpace(s[k])
    ensures n < |s| ==> IsSpace(s[n])
  {
    if s == [] || IsSpace(s[0]) then 0 else 1 + WordEnd(s[1..])
  }

  /** Leading white space followed by a string that does not start with
      white space is exactly what `TrimStart` drops. */
  lemma {:induction false} TrimStartRun(p: string, s: string)
    requires forall c :: c in p ==> IsSpace(c)
    requires s == [] || !IsSpace(s[0])
    ensures TrimStart(p + s) == s
  {
    if p != [] {
      assert p[0] in p;
      assert (p + s)[1..] == p[1..] + s;
      assert forall c :: c in p[1..] ==> c in p;
      TrimStartRun(p[1..], s);
    } else {
      assert p + s == s;
    }
  }

  /** A trimmed string with white space in it is a word, a run of white
      space and a shorter trimmed rest; its split is the word followed by
      the split of the rest. */
  lemma SplitWsStep(t: string) returns (w: string, gap: string, u: string)
    requires t != [] && IsTrimmed(t) && WordEnd(t) < |t|
    ensures w != [] && SpaceFree(w) && SpaceRun(gap) && u != [] && IsTrimmed(u) && |u| < |t|
    ensures t == w + gap + u
    ensures SplitWs(t) == [w] + SplitWs(u)
  {
    var rest;
    w, rest := WordPrefix(t);
    gap, u := RunPrefix(rest);
    assert t == w + gap + u;
    SplitWsGap(w, gap, u);
  }

  /** The first word of a trimmed string that has white space in it, and
      what follows it, which starts with white space and ends without it. */
  lemma WordPrefix(t: string) returns (w: string, rest: string)
    requires t != [] && IsTrimmed(t) && WordEnd(t) < |t|
    ensures w != [] && SpaceFree(w) && t == w + rest
    ensures rest != [] && IsSpace(rest[0]) && !IsSpace(rest[|rest| - 1])
  {
    var n := WordEnd(t);
    w := t[..n];
    rest := t[n..];
    assert SpaceFree(w) by {
      forall c | c in w ensures !IsSpace(c) {
        var k :| 0 <= k < |w| && w[k] == c;
        assert w[k] == t[k];
      }
    }
    assert rest[0] == t[n];
    assert rest[|rest| - 1] == t[|t| - 1];
  }

  /** A string that starts with white space and ends without it is a run of
      white space followed by a trimmed, non-empty rest. */
  lemma RunPrefix(rest: string) returns (gap: string, u: string)
    requires rest != [] && IsSpace(rest[0]) && !IsSpace(rest[|rest| - 1])
    ensures SpaceRun(gap) && u != [] && IsTrimmed(u) && rest == gap + u
  {
    TrimStartSpec(rest);
    u := TrimStart(rest);
    gap := rest[..|rest| - |u|];
    assert rest == gap + u;
    assert SpaceRun(gap) by {
      forall c | c in gap ensures IsSpace(c) {
        var k :| 0 <= k < |gap| && gap[k] == c;
        assert gap[k] == rest[k];
      }
    }
    assert u != [];
    assert u[|u| - 1] == rest[|rest| - 1];
  }

  /** A word, a run of white space and a rest that does not start with
      white space split into the word and the split of the rest. */
  lemma SplitWsGap(w: string, gap: string, u: string)
    requires w != [] && SpaceFree(w) && SpaceRun(gap) && (u == [] || !IsSpace(u[0]))
    ensures SplitWs(w + gap + u) == [w] + SplitWs(u)
  {
    assert gap[0] in gap;
    assert w + gap + u == w + (gap + u);
    assert (gap + u)[0] == gap[0];
    SplitWsWord(w, gap + u);
    assert (gap + u)[1..] == gap[1..] + u;
    assert forall c :: c in gap[1..] ==> c in gap;
    TrimStartRun(gap[1..], u);
  }

  /** `t` is `pieces` joined by `runs`: non-empty pieces without white
      space, with a non-empty run of white space between each two. */
  predicate Spaced(t: string, pieces: seq<string>, runs: seq<string>)
  {
    && |pieces| == |runs| + 1
    && (forall i :: 0 <= i < |pieces| ==> pieces[i] != [] && SpaceFree(pieces[i]))
    && (forall i :: 0 <= i < |runs| ==> SpaceRun(runs[i]))
    && t == Glue(pieces, runs)
  }

  /** For a trimmed, non-empty string, `split(/\s+/)` gives non-empty pieces
      without white space, and the string is those pieces joined by
      non-empty runs of white space. */
  lemma {:induction false} SplitWsSpec(t: string)
    requires t != [] && IsTrimmed(t)
    ensures exists runs :: Spaced(t, SplitWs(t), runs)
    decreases |t|
  {
    if WordEnd(t) == |t| {
      assert SpaceFree(t) by {
        forall c | c in t ensures !IsSpace(c) {
          var k :| 0 <= k < |t| && t[k] == c;
        }
      }
      SplitWsSingle(t);
      assert Spaced(t, SplitWs(t), []);
    } else {
      var w, gap, u := SplitWsStep(t);
      SplitWsSpec(u);
      var more :| Spaced(u, SplitWs(u), more);
      SpacedCons(w, gap, u, SplitWs(u), more);
      assert Spaced(t, SplitWs(t), [gap] + more);
    }
  }

  /** Putting a word and a run in front of a spaced string. */
  lemma SpacedCons(w: string, gap: string, u: string, ps: seq<string>, rs: seq<string>)
    requires w != [] && SpaceFree(w) && SpaceRun(gap) && Spaced(u, ps, rs)
    ensures Spaced(w + gap + u, [w] + ps, [gap] + rs)
  {
    assert ([w] + ps)[1..] == ps;
    assert ([gap] + rs)[1..] == rs;
    forall i | 0 <= i < |[w] + ps| ensures ([w] + ps)[i] != [] && SpaceFree(([w] + ps)[i]) {
      if i > 0 { assert ([w] + ps)[i] == ps[i - 1]; }
    }
    forall i | 0 <= i < |[gap] + rs| ensures SpaceRun(([gap] + rs)[i]) {
      if i > 0 { assert ([gap] + rs)[i] == rs[i - 1]; }
    }
  }

  /** The other direction: gluing non-empty, white-space-free words with
      non-empty white-space runs and splitting gives back the words. */
  lemma {:induction false} SplitWsGlue(words: seq<string>, runs: seq<string>)
    requires |words| == |runs| + 1
    requires forall i :: 0 <= i < |words| ==> words[i] != [] && SpaceFree(words[i])
    requires forall i :: 0 <= i < |runs| ==> SpaceRun(runs[i])
    ensures SplitWs(Glue(words, runs)) == words
  {
    if runs == [] {
      SplitWsSingle(words[0]);
    } else {
      var ws := words[1..];
      var rs := runs[1..];
      forall i | 0 <= i < |ws| ensures ws[i] != [] && SpaceFree(ws[i]) {
        assert ws[i] == words[i + 1];
      }
      forall i | 0 <= i < |rs| ensures SpaceRun(rs[i]) {
        assert rs[i] == runs[i + 1];
      }
      SplitWsGlue(ws, rs);
      var rest := Glue(ws, rs);
      GlueStart(ws, rs);
      assert Glue(words, runs) == words[0] + runs[0] + rest;
      SplitWsGap(words[0], runs[0], rest);
      assert [words[0]] + ws == words;
    }
  }

  /** A glued string starts with its first piece and ends with its last. */
  lemma {:induction false} GlueStart(pieces: seq<string>, runs: seq<string>)
    requires |pieces| == |runs| + 1 && pieces[0] != []
    ensures Glue(pieces, runs) != [] && Glue(pieces, runs)[0] == pieces[0][0]
  {
  }

  /** A glued string ends with the last character of its last piece. */
  lemma {:induction false} GlueEnd(pieces: seq<string>, runs: seq<string>)
    requires |pieces| == |runs| + 1 && pieces[|pieces| - 1] != []
    ensures Glue(pieces, runs) != []
    ensures Glue(pieces, runs)[|Glue(pieces, runs)| - 1] == pieces[|pieces| - 1][|pieces[|pieces| - 1]| - 1]
  {
    if runs != [] {
      GlueEnd(pieces[1..], runs[1..]);
      var rest := Glue(pieces[1..], runs[1..]);
      assert Glue(pieces, runs) == pieces[0] + runs[0] + rest;
    }
  }

  /** ASCII case mapping; other characters are left alone. */
  function LowerChar(c: char): char
  {
    if 'A' <= c <= 'Z' then (c as int + 32) as char else c
  }

  function UpperChar(c: char): char
  {
    if 'a' <= c <= 'z' then (c as int - 32) as char else c
  }

  /** `s.toLowerCase()`, character by character: same length, no ASCII capital
      remains, and lowering twice is lowering once. */
  function ToLower(s: string): (r: string)
    ensures |r| == |s|
    ensures forall i :: 0 <= i < |s| ==> r[i] == LowerChar(s[i])
    ensures forall i :: 0 <= i < |r| ==> !('A' <= r[i] <= 'Z')
  {
    seq(|s|, i requires 0 <= i < |s| => LowerChar(s[i]))
  }

  lemma ToLowerIdempotent(s: string)
    ensures ToLower(ToLower(s)) == ToLower(s)
  {
  }

  /** Lower-casing never creates or removes white space. */
  lemma LowerCharSpace(c: char)
    ensures IsSpace(LowerChar(c)) <==> IsSpace(c)
  {
  }

  /** Lower-casing commutes with trimming. */
  lemma {:induction false} TrimStartLower(s: string)
    ensures TrimStart(ToLower(s)) == ToLower(TrimStart(s))
    decreases |s|
  {
    if s != [] {
      LowerCharSpace(s[0]);
      assert ToLower(s)[1..] == ToLower(s[1..]);
      if IsSpace(s[0]) {
        TrimStartLower(s[1..]);
      }
    }
  }

  lemma {:induction false} TrimEndLower(s: string)
    ensures TrimEnd(ToLower(s)) == ToLower(TrimEnd(s))
    decreases |s|
  {
    if s != [] {
      LowerCharSpace(s[|s| - 1]);
      assert ToLower(s)[..|s| - 1] == ToLower(s[..|s| - 1]);
      if IsSpace(s[|s| - 1]) {
        TrimEndLower(s[..|s| - 1]);
      }
    }
  }

  lemma TrimLower(s: string)
    ensures Trim(ToLower(s)) == ToLower(Trim(s))
  {
    TrimStartLower(s);
    TrimEndLower(TrimStart(s));
  }

  /** The default order of `sort()` on strings: character by character, a
      proper prefix first. */
  predicate Before(a: string, b: string)
    decreases |a|
  {
    if a == [] then b != []
    else b != [] && (a[0] < b[0] || (a[0] == b[0] && Before(a[1..], b[1..])))
  }

  lemma {:induction false} BeforeIrreflexive(a: string)
    ensures !Before(a, a)
    decreases |a|
  {
    if a != [] {
      BeforeIrreflexive(a[1..]);
    }
  }

  lemma {:induction false} BeforeTransitive(a: string, b: string, c: string)
    requires Before(a, b) && Before(b, c)
    ensures Before(a, c)
    decreases |a|
  {
    if a != [] && a[0] == b[0] && b[0] == c[0] {
      BeforeTransitive(a[1..], b[1..], c[1..]);
    }
  }

  lemma {:induction false} BeforeTotal(a: string, b: string)
    requires a != b
    ensures Before(a, b) || Before(b, a)
    decreases |a|
  {
    if a != [] && b != [] && a[0] == b[0] {
      assert a == [a[0]] + a[1..] && b == [b[0]] + b[1..];
      BeforeTotal(a[1..], b[1..]);
    }
  }

  /** `needle` occurs in `hay` starting at position `i`. */
  predicate OccursAt(hay: string, needle: string, i: int)
  {
    0 <= i && i + |needle| <= |hay| && hay[i..i + |needle|] == needle
  }

  /** `hay.includes(needle)` */
  function Includes(hay: string, needle: string): (r: bool)
    ensures needle == [] ==> r
    decreases |hay|
  {
    (|needle| <= |hay| && hay[..|needle|] == needle) || (hay != [] && Includes(hay[1..], needle))
  }

  /** `includes` holds exactly when the needle occurs somewhere. */
  lemma IncludesIffOccurs(hay: string, needle: string)
    ensures Includes(hay, needle) <==> exists i :: OccursAt(hay, needle, i)
  {
    if Includes(hay, needle) {
      IncludesOccurs(hay, needle);
    }
    if i :| OccursAt(hay, needle, i) {
      OccursIncludes(hay, needle, i);
    }
  }

  lemma {:induction false} IncludesOccurs(hay: string, needle: string)
    requires Includes(hay, needle)
    ensures exists i :: OccursAt(hay, needle, i)
    decreases |hay|
  {
    if |needle| <= |hay| && hay[..|needle|] == needle {
      assert hay[0..|needle|] == hay[..|needle|];
      assert OccursAt(hay, needle, 0);
    } else {
      IncludesOccurs(hay[1..], needle);
      var i :| OccursAt(hay[1..], needle, i);
      assert hay[1..][i..i + |needle|] == hay[i + 1..i + 1 + |needle|];
      assert OccursAt(hay, needle, i + 1);
    }
  }

  lemma {:induction false} OccursIncludes(hay: string, needle: string, i: int)
    requires OccursAt(hay, needle, i)
    ensures Includes(hay, needle)
    decreases i
  {
    if i == 0 {
      assert hay[0..|needle|] == hay[..|needle|];
    } else {
      assert hay[1..][i - 1..i - 1 + |needle|] == hay[i..i + |needle|];
      OccursIncludes(hay[1..], needle, i - 1);
    }
  }
}
