/**
 The report text produced by the `text/template` at the top of error.go,
 stated directly, together with an independent line-by-line description of
 the same text and the lemmas that relate the two.
 */
module Template {

  const AdviceHeader := "To fix this, you can try:"
  const CausesHeader := "This was caused by:"
  const BulletPrefix := " - "

  /** `{{- range .Items }}\n - {{ . }}{{- end -}}`: one "\n - item" per item. */
  function Bullets(items: seq<string>): string
  {
    if items == [] then "" else "\n" + BulletPrefix + items[0] + Bullets(items[1..])
  }

  /** `{{- if .Items }}\n\n<header>` with its bullets; nothing at all for an empty list. */
  function Section(header: string, items: seq<string>): string
  {
    if items == [] then "" else "\n\n" + header + Bullets(items)
  }

  /** The executed template: the message, then the advice section, then the causes section. */
  function Render(message: string, advice: seq<string>, causes: seq<string>): string
  {
    message + Section(AdviceHeader, advice) + Section(CausesHeader, causes)
  }

  // The same report described as a list of lines.

  function BulletLines(items: seq<string>): (r: seq<string>)
    ensures |r| == |items|
    ensures forall i :: 0 <= i < |r| ==> r[i] == BulletPrefix + items[i]
  {
    if items == [] then [] else [BulletPrefix + items[0]] + BulletLines(items[1..])
  }

  /** A blank line, the header, then one bullet line per item; no lines for an empty list. */
  function SectionLines(header: string, items: seq<string>): seq<string>
  {
    if items == [] then [] else ["", header] + BulletLines(items)
  }

  function ReportLines(message: string, advice: seq<string>, causes: seq<string>): seq<string>
  {
    [message] + SectionLines(AdviceHeader, advice) + SectionLines(CausesHeader, causes)
  }

  /** Every line prefixed with a newline. */
  function Lined(lines: seq<string>): string
  {
    if lines == [] then "" else "\n" + lines[0] + Lined(lines[1..])
  }

  /** The lines joined with newlines between them. */
  function JoinLines(lines: seq<string>): string
  {
    if lines == [] then "" else lines[0] + Lined(lines[1..])
  }

  /** The pieces of `s` between newlines; a string without newlines is one piece. */
  function SplitLines(s: string): (r: seq<string>)
    ensures |r| >= 1
  {
    if s == [] then [""]
    else
      var rest := SplitLines(s[1..]);
      if s[0] == '\n' then [""] + rest else [[s[0]] + rest[0]] + rest[1..]
  }

  predicate SingleLine(s: string)
  {
    '\n' !in s
  }

  predicate AllSingleLine(lines: seq<string>)
  {
    forall i :: 0 <= i < |lines| ==> SingleLine(lines[i])
  }

  lemma {:induction false} LinedAppend(xs: seq<string>, ys: seq<string>)
    ensures Lined(xs + ys) == Lined(xs) + Lined(ys)
  {
    if xs != [] {
      LinedAppend(xs[1..], ys);
      assert (xs + ys)[1..] == xs[1..] + ys;
    } else {
      assert xs + ys == ys;
    }
  }

  lemma {:induction false} BulletsAreLined(items: seq<string>)
    ensures Bullets(items) == Lined(BulletLines(items))
  {
    if items != [] {
      BulletsAreLined(items[1..]);
    }
  }

  lemma SectionIsLined(header: string, items: seq<string>)
    ensures Section(header, items) == Lined(SectionLines(header, items))
  {
    if items != [] {
      BulletsAreLined(items);
      LinedAppend(["", header], BulletLines(items));
    }
  }

  lemma JoinCons(first: string, rest: seq<string>)
    ensures JoinLines([first] + rest) == first + Lined(rest)
  {
    assert ([first] + rest)[1..] == rest;
  }

  lemma SectionsJoin(message: string, h1: string, xs: seq<string>, h2: string, ys: seq<string>)
    ensures message + Section(h1, xs) + Section(h2, ys)
            == JoinLines([message] + SectionLines(h1, xs) + SectionLines(h2, ys))
  {
    var a, c := SectionLines(h1, xs), SectionLines(h2, ys);
    SectionIsLined(h1, xs);
    SectionIsLined(h2, ys);
    LinedAppend(a, c);
    assert [message] + a + c == [message] + (a + c);
    JoinCons(message, a + c);
  }

  /** The rendered report is exactly its lines joined with newlines. */
  lemma RenderJoinsReportLines(message: string, advice: seq<string>, causes: seq<string>)
    ensures Render(message, advice, causes) == JoinLines(ReportLines(message, advice, causes))
  {
    SectionsJoin(message, AdviceHeader, advice, CausesHeader, causes);
  }

  /** Splitting a string that has no newline before `tail` keeps that prefix on the first piece. */
  lemma {:induction false} SplitPrefix(a: string, tail: string)
    requires SingleLine(a)
    ensures SplitLines(a + tail) == [a + SplitLines(tail)[0]] + SplitLines(tail)[1..]
  {
    if a == [] {
      assert a + tail == tail;
      assert a + SplitLines(tail)[0] == SplitLines(tail)[0];
    } else {
      assert (a + tail)[0] == a[0];
      assert (a + tail)[1..] == a[1..] + tail;
      SplitPrefix(a[1..], tail);
      assert [a[0]] + (a[1..] + SplitLines(tail)[0]) == a + SplitLines(tail)[0];
    }
  }

  lemma {:induction false} SplitLined(first: string, rest: seq<string>)
    requires SingleLine(first) && AllSingleLine(rest)
    ensures SplitLines(first + Lined(rest)) == [first] + rest
    decreases |rest|
  {
    var tail := Lined(rest);
    SplitPrefix(first, tail);
    if rest == [] {
      assert SplitLines(tail) == [""];
      assert first + "" == first;
    } else {
      var more := rest[0] + Lined(rest[1..]);
      assert tail == "\n" + more;
      assert tail[1..] == more;
      SplitLined(rest[0], rest[1..]);
      assert SplitLines(tail) == [""] + rest;
      assert first + "" == first;
    }
  }

  /** Joining single-line pieces and splitting the result gives the pieces back. */
  lemma SplitJoin(lines: seq<string>)
    requires |lines| >= 1 && AllSingleLine(lines)
    ensures SplitLines(JoinLines(lines)) == lines
  {
    SplitLined(lines[0], lines[1..]);
  }

  lemma BulletLinesAreSingle(items: seq<string>)
    requires AllSingleLine(items)
    ensures AllSingleLine(BulletLines(items))
  {
    var b := BulletLines(items);
    forall i | 0 <= i < |b|
      ensures SingleLine(b[i])
    {
      assert b[i] == BulletPrefix + items[i];
      assert SingleLine(items[i]);
      assert '\n' !in BulletPrefix;
    }
  }

  lemma SectionLinesAreSingle(header: string, items: seq<string>)
    requires SingleLine(header) && AllSingleLine(items)
    ensures AllSingleLine(SectionLines(header, items))
  {
    if items != [] {
      BulletLinesAreSingle(items);
      var s := SectionLines(header, items);
      forall i | 0 <= i < |s|
        ensures SingleLine(s[i])
      {
        if i >= 2 {
          assert s[i] == BulletLines(items)[i - 2];
        }
      }
    }
  }

  /**
   When the message, the advice and the cause messages hold no newline, the
   report's lines are the message, then a blank line, the advice header and
   one bullet per advice if there is advice, then a blank line, the causes
   header and one bullet per cause if there are causes.
   */
  lemma RenderedLines(message: string, advice: seq<string>, causes: seq<string>)
    requires SingleLine(message) && AllSingleLine(advice) && AllSingleLine(causes)
    ensures SplitLines(Render(message, advice, causes)) == ReportLines(message, advice, causes)
    ensures |ReportLines(message, advice, causes)| ==
            1 + (if advice == [] then 0 else 2 + |advice|) + (if causes == [] then 0 else 2 + |causes|)
  {
    var lines := ReportLines(message, advice, causes);
    var a, c := SectionLines(AdviceHeader, advice), SectionLines(CausesHeader, causes);
    assert SingleLine(AdviceHeader) && SingleLine(CausesHeader);
    SectionLinesAreSingle(AdviceHeader, advice);
    SectionLinesAreSingle(CausesHeader, causes);
    assert lines == [message] + a + c;
    forall i | 0 <= i < |lines|
      ensures SingleLine(lines[i])
    {
      if i > 0 && i <= |a| {
        assert lines[i] == a[i - 1];
      } else if i > |a| {
        assert lines[i] == c[i - 1 - |a|];
      }
    }
    RenderJoinsReportLines(message, advice, causes);
    SplitJoin(lines);
  }

  /** A line that does not start with a space is never a bullet line. */
  lemma NotABullet(line: string, items: seq<string>)
    requires line != [] && line[0] != ' '
    ensures line !in BulletLines(items)
  {
    var b := BulletLines(items);
    forall i | 0 <= i < |b|
      ensures b[i] != line
    {
      assert b[i][0] == ' ';
    }
  }

  /** Such a line is in one section's lines exactly when it is that section's header and the section has items. */
  lemma InSectionLines(line: string, header: string, items: seq<string>)
    requires line != [] && line[0] != ' '
    ensures line in SectionLines(header, items) <==> items != [] && line == header
  {
    if items != [] {
      NotABullet(line, items);
      var s := SectionLines(header, items);
      assert s == ["", header] + BulletLines(items);
      assert s[1] == header;
    }
  }

  lemma HeadersIn(lines: seq<string>, message: string, h1: string, xs: seq<string>, h2: string, ys: seq<string>)
    requires lines == [message] + SectionLines(h1, xs) + SectionLines(h2, ys)
    requires h1 != [] && h1[0] != ' ' && h2 != [] && h2[0] != ' ' && h1 != h2
    ensures h1 in lines[1..] <==> xs != []
    ensures h2 in lines[1..] <==> ys != []
  {
    var a, c := SectionLines(h1, xs), SectionLines(h2, ys);
    assert lines[1..] == a + c;
    InSectionLines(h1, h1, xs);
    InSectionLines(h1, h2, ys);
    InSectionLines(h2, h1, xs);
    InSectionLines(h2, h2, ys);
    assert h1 in a + c <==> h1 in a || h1 in c;
    assert h2 in a + c <==> h2 in a || h2 in c;
  }

  /**
   The sectioning rule: below the message, the advice header appears exactly
   when there is advice, and the causes header exactly when there are causes.
   */
  lemma HeadersMatchLists(message: string, advice: seq<string>, causes: seq<string>)
    requires SingleLine(message) && AllSingleLine(advice) && AllSingleLine(causes)
    ensures var lines := SplitLines(Render(message, advice, causes));
            && lines[0] == message
            && (AdviceHeader in lines[1..] <==> advice != [])
            && (CausesHeader in lines[1..] <==> causes != [])
  {
    RenderedLines(message, advice, causes);
    assert AdviceHeader != CausesHeader by { assert |AdviceHeader| != |CausesHeader|; }
    assert AdviceHeader[0] == 'T' && CausesHeader[0] == 'T';
    HeadersIn(ReportLines(message, advice, causes), message, AdviceHeader, advice, CausesHeader, causes);
  }

  /** With no advice and no causes the report is exactly the message. */
  lemma PlainMessage(message: string)
    ensures Render(message, [], []) == message
  {
  }
}
