/** `toHtmlParagraphs`: story text becomes HTML paragraphs. The text is split
    on every run of two or more newlines, each piece has its single newlines
    turned into `<br/>` and is wrapped in `<p>`...`</p>`, and the pieces are
    concatenated in order. */
module Paragraphs {
  import opened Wrappers

  /** The number of newlines `s` starts with. */
  function LeadingNewlines(s: string): (k: nat)
    ensures k <= |s|
    ensures forall i :: 0 <= i < k ==> s[i] == '\n'
    ensures k < |s| ==> s[k] != '\n'
  {
    if s != [] && s[0] == '\n' then 1 + LeadingNewlines(s[1..]) else 0
  }

  /** `s.split(/\n{2,}/)`: the pieces between maximal runs of at least two newlines.
      A single newline stays inside its piece; leading or trailing runs give empty pieces. */
  function Split(s: string): (r: seq<string>)
    ensures |r| >= 1
    decreases |s|
  {
    if s == [] then [""]
    else
      var k := LeadingNewlines(s);
      if k >= 2 then [""] + Split(s[k..])
      else
        var rest := Split(s[1..]);
        [[s[0]] + rest[0]] + rest[1..]
  }

  /** `p.replace(/\n/g, '<br/>')`. */
  function BreakLines(s: string): (r: string)
    ensures '\n' !in r
    ensures '\n' !in s ==> r == s
  {
    if s == [] then []
    else (if s[0] == '\n' then "<br/>" else [s[0]]) + BreakLines(s[1..])
  }

  /** A global replacement works character by character: a newline becomes `<br/>`,
      any other character stays itself. */
  lemma BreakLinesChar(c: char)
    ensures c == '\n' ==> BreakLines([c]) == "<br/>"
    ensures c != '\n' ==> BreakLines([c]) == [c]
  {
    assert [c][1..] == [];
  }

  /** ... and independently on each part of the text, so together with `BreakLinesChar`
      this determines `BreakLines` on every text. */
  lemma {:induction false} BreakLinesAppend(a: string, b: string)
    ensures BreakLines(a + b) == BreakLines(a) + BreakLines(b)
  {
    if a == [] {
      assert a + b == b;
    } else {
      assert (a + b)[0] == a[0];
      assert (a + b)[1..] == a[1..] + b;
      BreakLinesAppend(a[1..], b);
    }
  }

  /** Each piece wrapped as a paragraph, joined with nothing in between. */
  function Wrap(pieces: seq<string>): (r: string)
    ensures '\n' !in r
  {
    if pieces == [] then ""
    else "<p>" + BreakLines(pieces[0]) + "</p>" + Wrap(pieces[1..])
  }

  /** `toHtmlParagraphs(text)`; `None` stands for an absent (`undefined`/`null`) text. */
  function ToHtmlParagraphs(text: Option<string>): (r: string)
    ensures text.None? || text == Some("") ==> r == ""
    ensures '\n' !in r
  {
    match text
    case None => ""
    case Some(t) => if t == "" then "" else Wrap(Split(t))
  }

  // ---------------------------------------------------------------------------
  // Splitting, and its inverse

  /** No two newlines in a row. */
  ghost predicate NoBlankLine(s: string)
  {
    forall i :: 0 <= i < |s| - 1 ==> !(s[i] == '\n' && s[i + 1] == '\n')
  }

  /** What a list of pieces must look like to come out of `Split`: at least one piece,
      no blank line inside a piece, no newline on a piece's side that touches a separator,
      and only the first and the last piece may be empty. */
  ghost predicate WellFormed(pieces: seq<string>)
  {
    && |pieces| >= 1
    && (forall i :: 0 <= i < |pieces| ==> NoBlankLine(pieces[i]))
    && (forall i :: 0 < i < |pieces| && pieces[i] != "" ==> pieces[i][0] != '\n')
    && (forall i :: 0 <= i < |pieces| - 1 && pieces[i] != "" ==> pieces[i][|pieces[i]| - 1] != '\n')
    && (forall i :: 0 < i < |pieces| - 1 ==> pieces[i] != "")
  }

  /** The pieces put back together with exactly two newlines between neighbours. */
  function Join(pieces: seq<string>): string
    requires |pieces| >= 1
  {
    if |pieces| == 1 then pieces[0] else pieces[0] + "\n\n" + Join(pieces[1..])
  }

  /** `s` with every run of two or more newlines shortened to exactly two. */
  function Collapse(s: string): string
    decreases |s|
  {
    if s == [] then []
    else
      var k := LeadingNewlines(s);
      if k >= 2 then "\n\n" + Collapse(s[k..]) else [s[0]] + Collapse(s[1..])
  }

  lemma {:induction false} JoinConsFirst(c: char, pieces: seq<string>)
    requires |pieces| >= 1
    ensures Join([[c] + pieces[0]] + pieces[1..]) == [c] + Join(pieces)
  {
    var ps := [[c] + pieces[0]] + pieces[1..];
    if |pieces| > 1 {
      assert ps[1..] == pieces[1..];
    }
  }

  /** Splitting and re-joining loses only the lengths of the separator runs. */
  lemma {:induction false} JoinSplit(s: string)
    ensures Join(Split(s)) == Collapse(s)
    decreases |s|
  {
    if s != [] {
      var k := LeadingNewlines(s);
      if k >= 2 {
        JoinSplit(s[k..]);
        assert ([""] + Split(s[k..]))[1..] == Split(s[k..]);
      } else {
        JoinSplit(s[1..]);
        JoinConsFirst(s[0], Split(s[1..]));
      }
    }
  }

  /** A piece with no blank line and no trailing newline, followed by a separator run,
      is split off as it is. */
  lemma {:induction false} SplitPiece(piece: string, tail: string)
    requires NoBlankLine(piece) && (piece == "" || piece[|piece| - 1] != '\n')
    requires LeadingNewlines(tail) >= 2
    ensures Split(piece + tail) == [piece] + Split(tail)[1..]
    decreases |piece|
  {
    if piece == "" {
      assert piece + tail == tail;
    } else {
      var rest := piece[1..];
      assert (piece + tail)[1..] == rest + tail;
      assert NoBlankLine(rest) by {
        forall i | 0 <= i < |rest| - 1 ensures !(rest[i] == '\n' && rest[i + 1] == '\n') {
          assert rest[i] == piece[i + 1] && rest[i + 1] == piece[i + 2];
        }
      }
      SplitPiece(rest, tail);
      if piece[0] == '\n' {
        assert |piece| > 1 && piece[1] != '\n';
        assert (piece + tail)[1] == piece[1];
      }
      assert LeadingNewlines(piece + tail) < 2;
      assert [piece[0]] + rest == piece;
    }
  }

  /** A text with no blank line is one piece. */
  lemma {:induction false} SplitSingle(piece: string)
    requires NoBlankLine(piece)
    ensures Split(piece) == [piece]
    decreases |piece|
  {
    if piece != [] {
      var rest := piece[1..];
      assert NoBlankLine(rest) by {
        forall i | 0 <= i < |rest| - 1 ensures !(rest[i] == '\n' && rest[i + 1] == '\n') {
          assert rest[i] == piece[i + 1] && rest[i + 1] == piece[i + 2];
        }
      }
      SplitSingle(rest);
      if piece[0] == '\n' && |piece| > 1 {
        assert piece[1] != '\n';
      }
      assert [piece[0]] + rest == piece;
    }
  }

  /** Dropping the first of several well-formed pieces leaves well-formed pieces whose
      join does not start with a newline. */
  lemma WellFormedRest(pieces: seq<string>)
    requires WellFormed(pieces) && |pieces| > 1
    ensures WellFormed(pieces[1..])
    ensures Join(pieces[1..]) == "" || Join(pieces[1..])[0] != '\n'
    ensures NoBlankLine(pieces[0]) && (pieces[0] == "" || pieces[0][|pieces[0]| - 1] != '\n')
  {
    var rest := pieces[1..];
    assert forall i :: 0 <= i < |rest| ==> rest[i] == pieces[i + 1];
    var joined := Join(rest);
    if |rest| == 1 {
      assert joined == pieces[1];
    } else {
      assert pieces[1] != "";
      assert joined == pieces[1] + ("\n\n" + Join(rest[1..]));
      assert joined[0] == pieces[1][0];
    }
  }

  /** A separator of exactly two newlines in front of text that does not start with one. */
  lemma SplitAfterSeparator(joined: string)
    requires joined == "" || joined[0] != '\n'
    ensures LeadingNewlines("\n\n" + joined) == 2
    ensures Split("\n\n" + joined) == [""] + Split(joined)
  {
    var tail := "\n\n" + joined;
    assert tail[0] == '\n' && tail[1] == '\n';
    assert tail[2..] == joined;
    assert LeadingNewlines(tail[2..]) == 0;
    assert tail[1..][1..] == tail[2..];
  }

  /** `Join` of several pieces, grouped as the first piece in front of a separator. */
  lemma JoinUnfold(pieces: seq<string>)
    requires |pieces| > 1
    ensures Join(pieces) == pieces[0] + ("\n\n" + Join(pieces[1..]))
  {
    assert pieces[0] + "\n\n" + Join(pieces[1..]) == pieces[0] + ("\n\n" + Join(pieces[1..]));
  }

  /** One piece in front of a separator and the join of pieces that `Split` already recovers. */
  lemma SplitJoinStep(first: string, rest: seq<string>)
    requires NoBlankLine(first) && (first == "" || first[|first| - 1] != '\n')
    requires |rest| >= 1 && (Join(rest) == "" || Join(rest)[0] != '\n')
    requires Split(Join(rest)) == rest
    ensures Split(first + ("\n\n" + Join(rest))) == [first] + rest
  {
    var joined := Join(rest);
    SplitAfterSeparator(joined);
    var tail := "\n\n" + joined;
    assert Split(tail)[1..] == rest by {
      assert ([""] + Split(joined))[1..] == Split(joined);
    }
    SplitPiece(first, tail);
  }

  /** `Split` undoes `Join` on every well-formed list of pieces. */
  lemma {:induction false} SplitJoin(pieces: seq<string>)
    requires WellFormed(pieces)
    ensures Split(Join(pieces)) == pieces
  {
    if |pieces| == 1 {
      SplitSingle(pieces[0]);
    } else {
      var rest := pieces[1..];
      WellFormedRest(pieces);
      SplitJoin(rest);
      SplitJoinStep(pieces[0], rest);
      JoinUnfold(pieces);
      assert [pieces[0]] + rest == pieces;
    }
  }

  /** Every result of `Split` is well formed: pieces never hold a blank line, etc. */
  lemma {:induction false} SplitWellFormed(s: string)
    ensures WellFormed(Split(s))
    decreases |s|
  {
    if s != [] {
      var k := LeadingNewlines(s);
      if k >= 2 {
        SplitWellFormed(s[k..]);
        SplitFirstChar(s[k..]);
        if k == |s| {
          assert s[k..] == [];
        }
        PrependEmptyWellFormed(Split(s[k..]));
      } else {
        SplitWellFormed(s[1..]);
        SplitFirstChar(s[1..]);
        if k == 1 && |s| > 1 {
          assert s[1..][0] == s[1] != '\n';
        }
        if |s| == 1 {
          assert s[1..] == [];
        }
        ConsCharWellFormed(s[0], Split(s[1..]));
      }
    }
  }

  lemma PrependEmptyWellFormed(rest: seq<string>)
    requires WellFormed(rest)
    requires rest[0] == "" ==> |rest| == 1
    requires rest[0] != "" ==> rest[0][0] != '\n'
    ensures WellFormed([""] + rest)
  {
    var r := [""] + rest;
    assert forall i :: 0 < i < |r| ==> r[i] == rest[i - 1];
  }

  lemma ConsCharWellFormed(c: char, rest: seq<string>)
    requires WellFormed(rest)
    requires c == '\n' && rest[0] != "" ==> rest[0][0] != '\n'
    requires |rest| > 1 && rest[0] == "" ==> c != '\n'
    ensures WellFormed([[c] + rest[0]] + rest[1..])
  {
    var first := [c] + rest[0];
    var r := [first] + rest[1..];
    assert forall i :: 0 < i < |r| ==> r[i] == rest[i];
    assert NoBlankLine(first) by {
      forall i | 0 < i < |first| - 1 ensures !(first[i] == '\n' && first[i + 1] == '\n') {
        assert first[i] == rest[0][i - 1] && first[i + 1] == rest[0][i];
      }
    }
    if rest[0] != "" {
      assert first[|first| - 1] == rest[0][|rest[0]| - 1];
    }
  }

  /** The first piece starts with the text's first character (unless it is empty). */
  lemma {:induction false} SplitFirstChar(s: string)
    ensures Split(s)[0] == "" <==> (s == [] || LeadingNewlines(s) >= 2)
    ensures Split(s)[0] != "" ==> Split(s)[0][0] == s[0]
    decreases |s|
  {
    if s != [] && LeadingNewlines(s) < 2 {
      SplitFirstChar(s[1..]);
    }
  }

  // ---------------------------------------------------------------------------
  // The rendered HTML

  /** A text without any newline becomes exactly one paragraph holding the text. */
  lemma PlainTextIsOneParagraph(t: string)
    requires t != "" && '\n' !in t
    ensures ToHtmlParagraphs(Some(t)) == "<p>" + t + "</p>"
  {
    assert NoBlankLine(t) by {
      forall i | 0 <= i < |t| - 1 ensures t[i] != '\n' {
        assert t[i] in t;
      }
    }
    SplitSingle(t);
    assert [t][1..] == [];
    assert Wrap([t]) == "<p>" + BreakLines(t) + "</p>" + Wrap([]);
    assert "<p>" + t + "</p>" + "" == "<p>" + t + "</p>";
  }

  /** The number of `<p>` openings in `s`. */
  function Openings(s: string): nat
  {
    if |s| < 3 then 0 else (if s[..3] == "<p>" then 1 else 0) + Openings(s[1..])
  }

  /** No `<p>` straddles the seam when the left part ends with '>' or the right part starts with '<'. */
  lemma {:induction false} OpeningsAppend(a: string, b: string)
    requires a == [] || a[|a| - 1] == '>' || (b != [] && b[0] == '<')
    ensures Openings(a + b) == Openings(a) + Openings(b)
  {
    if a == [] {
      assert a + b == b;
    } else {
      assert (a + b)[1..] == a[1..] + b;
      if |a| >= 3 {
        assert (a + b)[..3] == a[..3];
      } else if |a + b| >= 3 {
        assert (a + b)[..3] != "<p>" by {
          if |a| == 1 {
            assert (a + b)[0] == a[0] && (a + b)[1] == b[0];
          } else {
            assert (a + b)[1] == a[1] && (a + b)[2] == b[0];
          }
        }
      }
      OpeningsAppend(a[1..], b);
    }
  }

  /** The tags the markup is built from: only `<p>` opens a paragraph. */
  lemma TagOpenings()
    ensures Openings("<p>") == 1 && Openings("</p>") == 0 && Openings("<br/>") == 0
  {
    assert "<p>"[1..] == "p>";
    assert "</p>"[..3][1] != "<p>"[1] && "</p>"[1..] == "/p>";
    assert "/p>"[..3][0] != "<p>"[0] && "/p>"[1..] == "p>";
    assert "<br/>"[..3][1] != "<p>"[1] && "<br/>"[1..] == "br/>";
    assert "br/>"[..3][0] != "<p>"[0] && "br/>"[1..] == "r/>";
    assert "r/>"[..3][0] != "<p>"[0] && "r/>"[1..] == "/>";
  }

  /** Text without '<' gains no `<p>` from line breaks. */
  lemma {:induction false} NoOpeningsInBrokenLines(s: string)
    requires '<' !in s
    ensures Openings(BreakLines(s)) == 0
  {
    if s != [] {
      assert '<' !in s[1..] by {
        assert forall c :: c in s[1..] ==> c in s;
      }
      NoOpeningsInBrokenLines(s[1..]);
      var rest := BreakLines(s[1..]);
      if s[0] == '\n' {
        assert BreakLines(s) == "<br/>" + rest;
        TagOpenings();
        OpeningsAppend("<br/>", rest);
      } else {
        var line := [s[0]] + rest;
        assert BreakLines(s) == line;
        assert line[1..] == rest;
        assert s[0] != '<';
        if |line| >= 3 {
          assert line[..3][0] == s[0];
          assert line[..3] != "<p>";
        }
      }
    }
  }

  /** Every character of every piece comes from the split text. */
  lemma {:induction false} PiecesDrawFromText(s: string)
    ensures forall i, c :: 0 <= i < |Split(s)| && c in Split(s)[i] ==> c in s
    decreases |s|
  {
    if s != [] {
      var k := LeadingNewlines(s);
      if k >= 2 {
        PiecesDrawFromText(s[k..]);
        var r := Split(s);
        assert forall i :: 0 < i < |r| ==> r[i] == Split(s[k..])[i - 1];
        assert forall c :: c in s[k..] ==> c in s;
      } else {
        PiecesDrawFromText(s[1..]);
        var r := Split(s);
        assert forall i :: 0 < i < |r| ==> r[i] == Split(s[1..])[i];
        assert r[0] == [s[0]] + Split(s[1..])[0];
        assert forall c :: c in s[1..] ==> c in s;
      }
    }
  }

  /** One wrapped paragraph whose body opens nothing adds exactly one opening. */
  lemma WrapStepOpenings(body: string, rest: string)
    requires Openings(body) == 0
    ensures Openings("<p>" + body + "</p>" + rest) == 1 + Openings(rest)
  {
    TagOpenings();
    var tail := "</p>" + rest;
    assert Openings(tail) == Openings(rest) by {
      OpeningsAppend("</p>", rest);
    }
    var middle := body + tail;
    assert Openings(middle) == Openings(rest) by {
      assert tail[0] == '<';
      OpeningsAppend(body, tail);
    }
    assert Openings("<p>" + middle) == 1 + Openings(rest) by {
      OpeningsAppend("<p>", middle);
    }
    assert "<p>" + body + "</p>" + rest == "<p>" + middle;
  }

  /** Wrapping pieces free of '<' opens exactly one paragraph per piece. */
  lemma {:induction false} OpeningsOfWrap(pieces: seq<string>)
    requires forall i :: 0 <= i < |pieces| ==> '<' !in pieces[i]
    ensures Openings(Wrap(pieces)) == |pieces|
  {
    if pieces != [] {
      OpeningsOfWrap(pieces[1..]);
      NoOpeningsInBrokenLines(pieces[0]);
      WrapStepOpenings(BreakLines(pieces[0]), Wrap(pieces[1..]));
    }
  }

  /** For a text without '<', the HTML has exactly as many `<p>` openings as `Split` gives pieces. */
  lemma OneOpeningPerPiece(t: string)
    requires t != "" && '<' !in t
    ensures Openings(ToHtmlParagraphs(Some(t))) == |Split(t)|
  {
    PiecesDrawFromText(t);
    OpeningsOfWrap(Split(t));
  }
}
