/** The Uzbek court-application ("ariza") generator (app/documents/generator.py):
    the line classifier that splits a generated text into header, body,
    appendix, date and signature, and the paragraph plan the Word document
    is built from. Fonts, margins and serialisation are not modelled. */
module Ariza {
  import opened Text
  import opened Chunking

  /** The two spellings of the title line. */
  const SpacedTitle: string := "А Р И З А"
  const PlainTitle: string := "АРИЗА"
  const AppendixMarker: string := "Илова:"
  const LawyerMarker: string := "Адвокат"
  const SignatureMarker: string := "Имзо"
  const DefaultSignature: string := "[Имзо]"
  /** A header line addressed to a court ("... судига") is set in bold. */
  const CourtMarker: string := "судига"

  /** The section the classifier is filling. */
  datatype Section = Header | Body | Appendix | Footer

  /** The state of the classifier between two lines. */
  datatype ParseState = ParseState(
    section: Section,
    header: seq<string>,
    body: seq<string>,
    appendix: seq<string>,
    date: string,
    signature: string)

  /** The dictionary `parse_ariza_text` returns. */
  datatype ArizaData = ArizaData(
    header: seq<string>,
    body: seq<string>,
    appendix: seq<string>,
    date: string,
    signature: string)

  const Start: ParseState := ParseState(Header, [], [], [], [], [])

  /** `re.search(r'\d{2}\.\d{2}\.\d{4}', s)` matches at position `i`. */
  predicate DateAt(s: string, i: nat) {
    && i + 10 <= |s|
    && IsDigit(s[i]) && IsDigit(s[i + 1]) && s[i + 2] == '.'
    && IsDigit(s[i + 3]) && IsDigit(s[i + 4]) && s[i + 5] == '.'
    && IsDigit(s[i + 6]) && IsDigit(s[i + 7]) && IsDigit(s[i + 8]) && IsDigit(s[i + 9])
  }

  predicate HasDate(s: string) {
    exists i: nat | i <= |s| :: DateAt(s, i)
  }

  predicate IsTitle(s: string) {
    Contains(s, SpacedTitle) || Contains(s, PlainTitle)
  }

  predicate NamesSigner(s: string) {
    Contains(s, LawyerMarker) || Contains(s, SignatureMarker)
  }

  /** The classifier's handling of one input line. */
  function StepLine(st: ParseState, line: string): ParseState
  {
    var s := Strip(line);
    if s == [] then st
    else if IsTitle(s) then st.(section := Body)
    else
      var next := if StartsWith(s, AppendixMarker) then Appendix else st.section;
      if HasDate(s) then st.(section := Footer, date := s)
      else if next == Footer || NamesSigner(s) then
        if st.date == [] then st.(section := next, date := s)
        else st.(section := next, signature := s)
      else if next == Header then st.(section := next, header := st.header + [s])
      else if next == Body then st.(section := next, body := st.body + [s])
      else st.(section := next, appendix := st.appendix + [s])
  }

  /** The classifier after the lines `lines`. */
  function ClassifyLines(lines: seq<string>): ParseState
  {
    if lines == [] then Start else StepLine(ClassifyLines(lines[..|lines| - 1]), lines[|lines| - 1])
  }

  /** One more line: the classifier takes one step. */
  lemma ClassifyNext(lines: seq<string>, i: nat)
    requires i < |lines|
    ensures ClassifyLines(lines[..i + 1]) == StepLine(ClassifyLines(lines[..i]), lines[i])
  {
    assert lines[..i + 1][..i] == lines[..i];
  }

  /** `parse_ariza_text`, with `today` the `datetime.now()` rendering used
      when the text has no date. */
  function Parse(text: string, today: string): ArizaData
  {
    var st := ClassifyLines(Split(text, "\n"));
    ArizaData(st.header, st.body, st.appendix,
              if st.date != [] then st.date else today,
              if st.signature != [] then st.signature else DefaultSignature)
  }

  // ---------------------------------------------------------------------------
  // The paragraph plan

  datatype Paragraph =
    | EmptyParagraph
    | RightAligned(text: string, bold: bool)
    | Centered(text: string, bold: bool)
    | Justified(text: string, firstLineIndent: bool)
    | SignatureLine(left: string, spacing: string, right: string)

  /** The forty spaces between the date and the signature. */
  const SignatureSpacing: string := "                                        "

  function HeaderParagraph(line: string): Paragraph {
    RightAligned(line, Contains(Lower(line), CourtMarker))
  }

  /** The paragraphs for the header lines. */
  function HeaderBlock(lines: seq<string>): (r: seq<Paragraph>)
    ensures |r| == |lines|
  {
    if lines == [] then [] else HeaderBlock(lines[..|lines| - 1]) + [HeaderParagraph(lines[|lines| - 1])]
  }

  /** The paragraphs for the body lines; only the first one is indented. */
  function BodyBlock(lines: seq<string>): (r: seq<Paragraph>)
    ensures |r| == |lines|
  {
    if lines == [] then [] else BodyBlock(lines[..|lines| - 1]) + [Justified(lines[|lines| - 1], |lines| == 1)]
  }

  /** The paragraphs for the appendix lines, none indented. */
  function AppendixBlock(lines: seq<string>): (r: seq<Paragraph>)
    ensures |r| == |lines|
  {
    if lines == [] then [] else AppendixBlock(lines[..|lines| - 1]) + [Justified(lines[|lines| - 1], false)]
  }

  /** The document's blocks in order: header, title, body, the appendix
      after a blank line when there is one, and the signature line. */
  function Assemble(header: seq<Paragraph>, body: seq<Paragraph>, appendix: seq<Paragraph>,
                    date: string, signature: string): seq<Paragraph> {
    header
      + [EmptyParagraph, Centered(SpacedTitle, true)]
      + body
      + (if appendix != [] then [EmptyParagraph] + appendix else [])
      + [EmptyParagraph, SignatureLine(date, SignatureSpacing, signature)]
  }

  /** The paragraphs `generate_document` adds, in order. */
  function Layout(data: ArizaData): seq<Paragraph> {
    Assemble(HeaderBlock(data.header), BodyBlock(data.body), AppendixBlock(data.appendix),
             data.date, data.signature)
  }

  /** The generator: the document it fills is the list of paragraphs added
      so far. */
  class ArizaDocumentGenerator {
    var paragraphs: seq<Paragraph>

    constructor()
      ensures paragraphs == []
    {
      paragraphs := [];
    }

    method AddRightAlignedParagraph(text: string, bold: bool)
      modifies this
      ensures paragraphs == old(paragraphs) + [RightAligned(text, bold)]
    {
      paragraphs := paragraphs + [RightAligned(text, bold)];
    }

    method AddCenterParagraph(text: string, bold: bool)
      modifies this
      ensures paragraphs == old(paragraphs) + [Centered(text, bold)]
    {
      paragraphs := paragraphs + [Centered(text, bold)];
    }

    method AddBodyParagraph(text: string, firstLineIndent: bool)
      modifies this
      ensures paragraphs == old(paragraphs) + [Justified(text, firstLineIndent)]
    {
      paragraphs := paragraphs + [Justified(text, firstLineIndent)];
    }

    method AddEmptyParagraph()
      modifies this
      ensures paragraphs == old(paragraphs) + [EmptyParagraph]
    {
      paragraphs := paragraphs + [EmptyParagraph];
    }

    method AddSignatureLine(leftText: string, rightText: string)
      modifies this
      ensures paragraphs == old(paragraphs) + [SignatureLine(leftText, SignatureSpacing, rightText)]
    {
      paragraphs := paragraphs + [SignatureLine(leftText, SignatureSpacing, rightText)];
    }

    /** `parse_ariza_text`: the line loop with its section variable. */
    method ParseArizaText(text: string, today: string) returns (r: ArizaData)
      ensures r == Parse(text, today)
    {
      var lines := Split(text, "\n");
      var section := Header;
      var headerLines: seq<string> := [];
      var bodyLines: seq<string> := [];
      var appendixLines: seq<string> := [];
      var footerDate: string := [];
      var footerSignature: string := [];
      var i := 0;
      while i < |lines|
        invariant 0 <= i <= |lines|
        invariant ParseState(section, headerLines, bodyLines, appendixLines, footerDate, footerSignature)
                  == ClassifyLines(lines[..i])
      {
        ClassifyNext(lines, i);
        var stripped := Strip(lines[i]);
        i := i + 1;
        if stripped == [] {
          continue;
        }
        if Contains(stripped, SpacedTitle) || Contains(stripped, PlainTitle) {
          section := Body;
          continue;
        }
        if StartsWith(stripped, AppendixMarker) {
          section := Appendix;
        }
        if HasDate(stripped) {
          footerDate := stripped;
          section := Footer;
          continue;
        }
        if section == Footer || Contains(stripped, LawyerMarker) || Contains(stripped, SignatureMarker) {
          if footerDate == [] {
            footerDate := stripped;
          } else {
            footerSignature := stripped;
          }
          continue;
        }
        if section == Header {
          headerLines := headerLines + [stripped];
        } else if section == Body {
          bodyLines := bodyLines + [stripped];
        } else if section == Appendix {
          appendixLines := appendixLines + [stripped];
        }
      }
      assert lines[..i] == lines;
      r := ArizaData(headerLines, bodyLines, appendixLines,
                     if footerDate != [] then footerDate else today,
                     if footerSignature != [] then footerSignature else DefaultSignature);
    }

    /** The header loop of `generate_document`. */
    method AddHeaderLines(lines: seq<string>)
      modifies this
      ensures paragraphs == old(paragraphs) + HeaderBlock(lines)
    {
      var i := 0;
      while i < |lines|
        invariant 0 <= i <= |lines|
        invariant paragraphs == old(paragraphs) + HeaderBlock(lines[..i])
      {
        assert lines[..i + 1][..i] == lines[..i];
        var line := lines[i];
        AddRightAlignedParagraph(line, Contains(Lower(line), CourtMarker));
        i := i + 1;
      }
      assert lines[..i] == lines;
    }

    /** The body loop of `generate_document`. */
    method AddBodyLines(lines: seq<string>)
      modifies this
      ensures paragraphs == old(paragraphs) + BodyBlock(lines)
    {
      var i := 0;
      while i < |lines|
        invariant 0 <= i <= |lines|
        invariant paragraphs == old(paragraphs) + BodyBlock(lines[..i])
      {
        assert lines[..i + 1][..i] == lines[..i];
        AddBodyParagraph(lines[i], i == 0);
        i := i + 1;
      }
      assert lines[..i] == lines;
    }

    /** The appendix loop of `generate_document`. */
    method AddAppendixLines(lines: seq<string>)
      modifies this
      ensures paragraphs == old(paragraphs) + AppendixBlock(lines)
    {
      var i := 0;
      while i < |lines|
        invariant 0 <= i <= |lines|
        invariant paragraphs == old(paragraphs) + AppendixBlock(lines[..i])
      {
        assert lines[..i + 1][..i] == lines[..i];
        AddBodyParagraph(lines[i], false);
        i := i + 1;
      }
      assert lines[..i] == lines;
    }

    /** `generate_document`. */
    method GenerateDocument(data: ArizaData)
      modifies this
      ensures paragraphs == old(paragraphs) + Layout(data)
    {
      ghost var start := paragraphs;
      AddHeaderLines(data.header);
      AddEmptyParagraph();
      AddCenterParagraph(SpacedTitle, true);
      ghost var titled := paragraphs;
      AddBodyLines(data.body);
      ghost var bodied := paragraphs;
      if data.appendix != [] {
        AddEmptyParagraph();
        AddAppendixLines(data.appendix);
      }
      ghost var appended := paragraphs;
      AddEmptyParagraph();
      AddSignatureLine(data.date, data.signature);
      Assembled(HeaderBlock(data.header), BodyBlock(data.body), AppendixBlock(data.appendix),
                data.date, data.signature, start, titled, bodied, appended, paragraphs);
    }
  }

  /** The paragraphs `generate_document` appends, block by block, make up
      the assembled document. */
  lemma Assembled(header: seq<Paragraph>, body: seq<Paragraph>, appendix: seq<Paragraph>,
                  date: string, signature: string, start: seq<Paragraph>, titled: seq<Paragraph>,
                  bodied: seq<Paragraph>, appended: seq<Paragraph>, finished: seq<Paragraph>)
    requires titled == start + header + [EmptyParagraph] + [Centered(SpacedTitle, true)]
    requires bodied == titled + body
    requires appendix != [] ==> appended == bodied + [EmptyParagraph] + appendix
    requires appendix == [] ==> appended == bodied
    requires finished == appended + [EmptyParagraph] + [SignatureLine(date, SignatureSpacing, signature)]
    ensures finished == start + Assemble(header, body, appendix, date, signature)
  {
    var tail := if appendix != [] then [EmptyParagraph] + appendix else [];
    assert appended == bodied + tail;
  }

  /** `generate_ariza_document`: a fresh generator, the parse, the layout. */
  method GenerateArizaDocument(documentText: string, today: string) returns (document: seq<Paragraph>)
    ensures document == Layout(Parse(documentText, today))
  {
    var generator := new ArizaDocumentGenerator();
    var parsed := generator.ParseArizaText(documentText, today);
    generator.GenerateDocument(parsed);
    document := generator.paragraphs;
  }

  // ---------------------------------------------------------------------------
  // Properties of the classifier

  /** A line the classifier may store in a list: stripped, not blank, and
      neither a title, a date nor a signer line. */
  predicate Storable(s: string) {
    Trimmed(s) && !IsTitle(s) && !HasDate(s) && !NamesSigner(s)
  }

  predicate AllStorable(xs: seq<string>) {
    forall k :: 0 <= k < |xs| ==> Storable(xs[k])
  }

  /** `xs` is `ys` with some elements left out. */
  predicate SubseqOf(xs: seq<string>, ys: seq<string>)
    decreases |ys|
  {
    if xs == [] then true
    else if ys == [] then false
    else (xs[|xs| - 1] == ys[|ys| - 1] && SubseqOf(xs[..|xs| - 1], ys[..|ys| - 1]))
         || SubseqOf(xs, ys[..|ys| - 1])
  }

  /** Every input line, stripped. */
  function StrippedLines(lines: seq<string>): (r: seq<string>)
    ensures |r| == |lines|
  {
    seq(|lines|, i requires 0 <= i < |lines| => Strip(lines[i]))
  }

  lemma SubseqOfSnoc(xs: seq<string>, ys: seq<string>, y: string)
    requires SubseqOf(xs, ys)
    ensures SubseqOf(xs, ys + [y])
    ensures SubseqOf(xs + [y], ys + [y])
  {
    assert (ys + [y])[..|ys|] == ys;
    assert (xs + [y])[..|xs|] == xs;
  }

  lemma ClassifySnoc(lines: seq<string>, l: string)
    ensures ClassifyLines(lines + [l]) == StepLine(ClassifyLines(lines), l)
  {
    assert (lines + [l])[..|lines|] == lines;
  }

  /** One line appends its stripped form to at most one list, and only a
      storable one, or replaces the date or the signature by it. */
  lemma StepShape(st: ParseState, l: string)
    ensures var s := Strip(l);
      var n := StepLine(st, l);
      && (n.header == st.header || (n.header == st.header + [s] && Storable(s)))
      && (n.body == st.body || (n.body == st.body + [s] && Storable(s)))
      && (n.appendix == st.appendix || (n.appendix == st.appendix + [s] && Storable(s)))
      && |n.header| + |n.body| + |n.appendix| <= |st.header| + |st.body| + |st.appendix| + 1
      && (n.date == st.date || (n.date == s && s != []))
      && (n.signature == st.signature || (n.signature == s && s != []))
  {
    var s := Strip(l);
    if s != [] && !IsTitle(s) && !HasDate(s) {
      var next := if StartsWith(s, AppendixMarker) then Appendix else st.section;
      if !(next == Footer || NamesSigner(s)) {
        assert Storable(s);
      }
    }
  }

  /** Every stored entry is a stripped, non-blank line that is neither a
      title, a date nor a signer line; the date and the signature are each
      empty or a stripped, non-blank line. */
  lemma {:induction false} EntriesAreStorable(lines: seq<string>)
    ensures var st := ClassifyLines(lines);
      && AllStorable(st.header) && AllStorable(st.body) && AllStorable(st.appendix)
      && (st.date == [] || Trimmed(st.date))
      && (st.signature == [] || Trimmed(st.signature))
  {
    if lines != [] {
      var init := lines[..|lines| - 1];
      EntriesAreStorable(init);
      StepShape(ClassifyLines(init), lines[|lines| - 1]);
    }
  }

  /** One line keeps each list a subsequence of the stripped lines. */
  lemma StepKeepsOrder(st: ParseState, l: string, ys: seq<string>)
    requires SubseqOf(st.header, ys) && SubseqOf(st.body, ys) && SubseqOf(st.appendix, ys)
    ensures var st' := StepLine(st, l);
      && SubseqOf(st'.header, ys + [Strip(l)])
      && SubseqOf(st'.body, ys + [Strip(l)])
      && SubseqOf(st'.appendix, ys + [Strip(l)])
  {
    StepShape(st, l);
    SubseqOfSnoc(st.header, ys, Strip(l));
    SubseqOfSnoc(st.body, ys, Strip(l));
    SubseqOfSnoc(st.appendix, ys, Strip(l));
  }

  /** Each list keeps the input order of the lines it takes. */
  lemma {:induction false} EntriesInInputOrder(lines: seq<string>)
    ensures var st := ClassifyLines(lines);
      && SubseqOf(st.header, StrippedLines(lines))
      && SubseqOf(st.body, StrippedLines(lines))
      && SubseqOf(st.appendix, StrippedLines(lines))
  {
    if lines != [] {
      var init := lines[..|lines| - 1];
      var l := lines[|lines| - 1];
      EntriesInInputOrder(init);
      assert StrippedLines(lines) == StrippedLines(init) + [Strip(l)];
      StepKeepsOrder(ClassifyLines(init), l, StrippedLines(init));
    }
  }

  /** A line with no marker of any kind. */
  predicate Unmarked(s: string) {
    !IsTitle(s) && !StartsWith(s, AppendixMarker) && !HasDate(s) && !NamesSigner(s)
  }

  /** Until the first marker every non-blank line goes to the header. */
  lemma {:induction false} HeaderBeforeMarkers(lines: seq<string>)
    requires forall k :: 0 <= k < |lines| ==> Unmarked(Strip(lines[k]))
    ensures ClassifyLines(lines) == ParseState(Header, NonEmptyStripped(lines), [], [], [], [])
  {
    if lines != [] {
      HeaderBeforeMarkers(lines[..|lines| - 1]);
    }
  }

  lemma ListsGrowStep(lines: seq<string>, x: string)
    ensures var st := ClassifyLines(lines);
      var st' := ClassifyLines(lines + [x]);
      st.header <= st'.header && st.body <= st'.body && st.appendix <= st'.appendix
  {
    ClassifySnoc(lines, x);
    StepShape(ClassifyLines(lines), x);
  }

  /** Later lines only add to the lists: each list after `lines` is a
      prefix of the same list after any further lines. */
  lemma {:induction false} ListsOnlyGrow(lines: seq<string>, rest: seq<string>)
    ensures var st := ClassifyLines(lines);
      var st' := ClassifyLines(lines + rest);
      st.header <= st'.header && st.body <= st'.body && st.appendix <= st'.appendix
    decreases |rest|
  {
    if rest == [] {
      assert lines + rest == lines;
    } else {
      var init := rest[..|rest| - 1];
      var x := rest[|rest| - 1];
      ListsOnlyGrow(lines, init);
      ListsGrowStep(lines + init, x);
      assert lines + rest == (lines + init) + [x];
    }
  }

  lemma StepLineOutsideHeader(st: ParseState, x: string)
    requires st.section != Header
    ensures StepLine(st, x).section != Header && StepLine(st, x).header == st.header
  {
  }

  lemma StepOutsideHeader(lines: seq<string>, x: string)
    requires ClassifyLines(lines).section != Header
    ensures ClassifyLines(lines + [x]).section != Header
    ensures ClassifyLines(lines + [x]).header == ClassifyLines(lines).header
  {
    ClassifySnoc(lines, x);
    StepLineOutsideHeader(ClassifyLines(lines), x);
  }

  /** Once the classifier has left the header it never returns to it, and
      the header takes no further line. */
  lemma {:induction false} HeaderClosed(lines: seq<string>, rest: seq<string>)
    requires ClassifyLines(lines).section != Header
    ensures ClassifyLines(lines + rest).section != Header
    ensures ClassifyLines(lines + rest).header == ClassifyLines(lines).header
    decreases |rest|
  {
    if rest == [] {
      assert lines + rest == lines;
    } else {
      var init := rest[..|rest| - 1];
      var x := rest[|rest| - 1];
      HeaderClosed(lines, init);
      StepOutsideHeader(lines + init, x);
      assert lines + rest == (lines + init) + [x];
    }
  }

  /** The marker-free opening lines of any text, stripped and without the
      blank ones, open its header. */
  lemma HeaderStartsWithUnmarked(pre: seq<string>, rest: seq<string>)
    requires forall k :: 0 <= k < |pre| ==> Unmarked(Strip(pre[k]))
    ensures NonEmptyStripped(pre) <= ClassifyLines(pre + rest).header
  {
    HeaderBeforeMarkers(pre);
    ListsOnlyGrow(pre, rest);
  }

  /** When the marker-free opening lines are followed by a title, an
      "Илова:" line or a date line, the header is exactly those lines,
      stripped and without the blank ones, whatever comes after. */
  lemma HeaderIsUnmarkedOpening(pre: seq<string>, l: string, rest: seq<string>)
    requires forall k :: 0 <= k < |pre| ==> Unmarked(Strip(pre[k]))
    requires var s := Strip(l); IsTitle(s) || StartsWith(s, AppendixMarker) || HasDate(s)
    ensures ClassifyLines(pre + [l] + rest).header == NonEmptyStripped(pre)
  {
    HeaderBeforeMarkers(pre);
    ClassifySnoc(pre, l);
    assert Strip(l) != [] by {
      if IsTitle(Strip(l)) {
        assert Contains(Strip(l), SpacedTitle) || Contains(Strip(l), PlainTitle);
      } else if HasDate(Strip(l)) {
        var i: nat :| i <= |Strip(l)| && DateAt(Strip(l), i);
      }
    }
    HeaderClosed(pre + [l], rest);
  }

  /** For a parsed text: its marker-free opening lines open the header. */
  lemma ParsedHeaderStartsWithUnmarked(text: string, today: string, pre: seq<string>, rest: seq<string>)
    requires Split(text, "\n") == pre + rest
    requires forall k :: 0 <= k < |pre| ==> Unmarked(Strip(pre[k]))
    ensures NonEmptyStripped(pre) <= Parse(text, today).header
  {
    HeaderStartsWithUnmarked(pre, rest);
  }

  /** A title line switches to the body and is stored nowhere. */
  lemma TitleRule(lines: seq<string>, l: string)
    requires IsTitle(Strip(l))
    ensures ClassifyLines(lines + [l]) == ClassifyLines(lines).(section := Body)
  {
    ClassifySnoc(lines, l);
  }

  /** A line starting with "Илова:" that is no title, no date and no signer
      line switches to the appendix and is its next entry. */
  lemma AppendixRule(lines: seq<string>, l: string)
    requires var s := Strip(l); StartsWith(s, AppendixMarker) && !IsTitle(s) && !HasDate(s) && !NamesSigner(s)
    ensures var st := ClassifyLines(lines);
      ClassifyLines(lines + [l]) == st.(section := Appendix, appendix := st.appendix + [Strip(l)])
  {
    ClassifySnoc(lines, l);
    assert Strip(l) != [];
  }

  /** A date line that is no title becomes the date, is stored in no list,
      and switches to the footer. */
  lemma DateRule(lines: seq<string>, l: string)
    requires HasDate(Strip(l)) && !IsTitle(Strip(l))
    ensures ClassifyLines(lines + [l]) == ClassifyLines(lines).(section := Footer, date := Strip(l))
  {
    ClassifySnoc(lines, l);
    var i: nat :| i <= |Strip(l)| && DateAt(Strip(l), i);
  }

  /** In the footer (unless it starts with "Илова:", which reopens the
      appendix), or when it names the lawyer or the signature, a line that
      is no title and no date fills the date if it is still empty and
      otherwise replaces the signature; no list changes. */
  lemma SignerRule(lines: seq<string>, l: string)
    requires var s := Strip(l); s != [] && !IsTitle(s) && !HasDate(s)
    requires (ClassifyLines(lines).section == Footer && !StartsWith(Strip(l), AppendixMarker)) || NamesSigner(Strip(l))
    ensures var st := ClassifyLines(lines);
      var st' := ClassifyLines(lines + [l]);
      && st'.header == st.header && st'.body == st.body && st'.appendix == st.appendix
      && (st.date == [] ==> st'.date == Strip(l) && st'.signature == st.signature)
      && (st.date != [] ==> st'.date == st.date && st'.signature == Strip(l))
  {
    ClassifySnoc(lines, l);
  }

  /** A line without a date never clears or replaces a date already set. */
  lemma StepKeepsDate(st: ParseState, l: string)
    requires st.date != [] && !HasDate(Strip(l))
    ensures StepLine(st, l).date == st.date
  {
  }

  lemma DateStep(lines: seq<string>, x: string)
    requires ClassifyLines(lines).date != [] && !HasDate(Strip(x))
    ensures ClassifyLines(lines + [x]).date == ClassifyLines(lines).date
  {
    ClassifySnoc(lines, x);
    StepKeepsDate(ClassifyLines(lines), x);
  }

  lemma NoDateInInit(rest: seq<string>, init: seq<string>)
    requires rest != [] && init == rest[..|rest| - 1]
    requires forall k :: 0 <= k < |rest| ==> !HasDate(Strip(rest[k]))
    ensures forall k :: 0 <= k < |init| ==> !HasDate(Strip(init[k]))
    ensures !HasDate(Strip(rest[|rest| - 1]))
  {
    forall k | 0 <= k < |init| ensures !HasDate(Strip(init[k])) {
      assert init[k] == rest[k];
    }
  }

  lemma DateStepAfter(lines: seq<string>, init: seq<string>, x: string)
    requires ClassifyLines(lines + init).date == ClassifyLines(lines).date != []
    requires !HasDate(Strip(x))
    ensures ClassifyLines((lines + init) + [x]).date == ClassifyLines(lines).date
  {
    DateStep(lines + init, x);
  }

  /** Lines without a date never clear or replace a date already set. */
  lemma {:induction false} DateKept(lines: seq<string>, rest: seq<string>)
    requires ClassifyLines(lines).date != []
    requires forall k :: 0 <= k < |rest| ==> !HasDate(Strip(rest[k]))
    ensures ClassifyLines(lines + rest).date == ClassifyLines(lines).date
    decreases |rest|
  {
    if rest == [] {
      assert lines + rest == lines;
    } else {
      var init := rest[..|rest| - 1];
      var x := rest[|rest| - 1];
      NoDateInInit(rest, init);
      DateKept(lines, init);
      DateStepAfter(lines, init, x);
      assert lines + rest == (lines + init) + [x];
    }
  }

  /** The last date line wins: once a date line is seen, only a later date
      line changes the date. */
  lemma LastDateWins(lines: seq<string>, l: string, rest: seq<string>)
    requires HasDate(Strip(l)) && !IsTitle(Strip(l))
    requires forall k :: 0 <= k < |rest| ==> !HasDate(Strip(rest[k]))
    ensures ClassifyLines(lines + [l] + rest).date == Strip(l)
  {
    DateRule(lines, l);
    var i: nat :| i <= |Strip(l)| && DateAt(Strip(l), i);
    DateKept(lines + [l], rest);
  }

  /** The parsed signature is never empty and is a stripped line; the date
      is `today` only when the text gave none. */
  lemma ParseDefaults(text: string, today: string)
    ensures var r := Parse(text, today);
      var st := ClassifyLines(Split(text, "\n"));
      && Trimmed(r.signature)
      && (st.signature == [] <==> r.signature == DefaultSignature && st.signature != DefaultSignature)
      && (st.date != [] ==> r.date == st.date)
      && (st.date == [] ==> r.date == today)
      && AllStorable(r.header) && AllStorable(r.body) && AllStorable(r.appendix)
  {
    EntriesAreStorable(Split(text, "\n"));
  }

  // ---------------------------------------------------------------------------
  // Properties of the layout

  lemma {:induction false} HeaderBlockRule(lines: seq<string>)
    ensures |HeaderBlock(lines)| == |lines|
    ensures forall k :: 0 <= k < |lines| ==>
      && HeaderBlock(lines)[k].RightAligned? && HeaderBlock(lines)[k].text == lines[k]
      && (HeaderBlock(lines)[k].bold <==> Contains(Lower(lines[k]), CourtMarker))
  {
    if lines != [] {
      HeaderBlockRule(lines[..|lines| - 1]);
    }
  }

  lemma {:induction false} BodyBlockRule(lines: seq<string>)
    ensures |BodyBlock(lines)| == |lines|
    ensures forall k :: 0 <= k < |lines| ==>
      && BodyBlock(lines)[k].Justified? && BodyBlock(lines)[k].text == lines[k]
      && (BodyBlock(lines)[k].firstLineIndent <==> k == 0)
  {
    if lines != [] {
      BodyBlockRule(lines[..|lines| - 1]);
    }
  }

  lemma {:induction false} AppendixBlockRule(lines: seq<string>)
    ensures AppendixBlock(lines) == seq(|lines|, k requires 0 <= k < |lines| => Justified(lines[k], false))
  {
    if lines != [] {
      AppendixBlockRule(lines[..|lines| - 1]);
    }
  }

  /** The header opens the assembled document, followed by a blank
      paragraph and the title; the whole has this length. */
  lemma AssembleHeaderAt(header: seq<Paragraph>, body: seq<Paragraph>, appendix: seq<Paragraph>,
                         date: string, signature: string)
    ensures var doc := Assemble(header, body, appendix, date, signature);
      && |doc| == |header| + 2 + |body| + (if appendix == [] then 0 else |appendix| + 1) + 2
      && (forall k :: 0 <= k < |header| ==> doc[k] == header[k])
      && doc[|header|] == EmptyParagraph && doc[|header| + 1] == Centered(SpacedTitle, true)
  {
    var pre := header + [EmptyParagraph, Centered(SpacedTitle, true)];
    var mid := pre + body;
    var doc := Assemble(header, body, appendix, date, signature);
    forall k | 0 <= k < |header| ensures doc[k] == header[k] {
      assert doc[k] == mid[k] == pre[k];
    }
  }

  /** The body follows the title. */
  lemma AssembleBodyAt(header: seq<Paragraph>, body: seq<Paragraph>, appendix: seq<Paragraph>,
                       date: string, signature: string, k: nat)
    requires k < |body|
    ensures var doc := Assemble(header, body, appendix, date, signature);
      |header| + 2 + k < |doc| && doc[|header| + 2 + k] == body[k]
  {
    var pre := header + [EmptyParagraph, Centered(SpacedTitle, true)];
    var mid := pre + body;
    var doc := Assemble(header, body, appendix, date, signature);
    assert doc[|header| + 2 + k] == mid[|pre| + k];
  }

  /** The appendix, after a blank paragraph, and the closing lines. */
  lemma AssembleClosingAt(header: seq<Paragraph>, body: seq<Paragraph>, appendix: seq<Paragraph>,
                          date: string, signature: string)
    ensures var doc := Assemble(header, body, appendix, date, signature);
      var at := |header| + 2 + |body|;
      && |doc| == at + (if appendix == [] then 0 else |appendix| + 1) + 2
      && (appendix != [] ==> doc[at] == EmptyParagraph)
      && (forall k :: 0 <= k < |appendix| ==> doc[at + 1 + k] == appendix[k])
      && doc[|doc| - 2] == EmptyParagraph
      && doc[|doc| - 1] == SignatureLine(date, SignatureSpacing, signature)
  {
    var mid := header + [EmptyParagraph, Centered(SpacedTitle, true)] + body;
    var tail := if appendix != [] then [EmptyParagraph] + appendix else [];
    var doc := Assemble(header, body, appendix, date, signature);
    assert doc == mid + tail + [EmptyParagraph, SignatureLine(date, SignatureSpacing, signature)];
    forall k | 0 <= k < |appendix| ensures doc[|mid| + 1 + k] == appendix[k] {
      assert doc[|mid| + 1 + k] == tail[1 + k];
    }
  }

  /** The header lines come first, right-aligned and bold exactly when
      addressed to a court, then a blank paragraph and the centred bold
      title. */
  lemma LayoutHeader(data: ArizaData)
    ensures var doc := Layout(data);
      var h := |data.header|;
      && |doc| == h + 2 + |data.body| + (if data.appendix == [] then 0 else |data.appendix| + 1) + 2
      && (forall k :: 0 <= k < h ==>
            doc[k].RightAligned? && doc[k].text == data.header[k]
            && (doc[k].bold <==> Contains(Lower(data.header[k]), CourtMarker)))
      && doc[h] == EmptyParagraph
      && doc[h + 1] == Centered(SpacedTitle, true)
  {
    var doc := Layout(data);
    var hb := HeaderBlock(data.header);
    AssembleHeaderAt(hb, BodyBlock(data.body), AppendixBlock(data.appendix), data.date, data.signature);
    HeaderBlockRule(data.header);
    forall k | 0 <= k < |data.header|
      ensures doc[k].RightAligned? && doc[k].text == data.header[k]
      ensures doc[k].bold <==> Contains(Lower(data.header[k]), CourtMarker)
    {
      assert doc[k] == hb[k];
    }
  }

  /** The body follows the title, justified, only its first paragraph
      indented. */
  lemma LayoutBody(data: ArizaData)
    ensures var doc := Layout(data);
      var h := |data.header|;
      forall k :: 0 <= k < |data.body| ==>
        h + 2 + k < |doc| && doc[h + 2 + k].Justified? && doc[h + 2 + k].text == data.body[k]
        && (doc[h + 2 + k].firstLineIndent <==> k == 0)
  {
    var doc := Layout(data);
    var bb := BodyBlock(data.body);
    var h := |data.header|;
    BodyBlockRule(data.body);
    forall k | 0 <= k < |data.body|
      ensures h + 2 + k < |doc| && doc[h + 2 + k].Justified? && doc[h + 2 + k].text == data.body[k]
      ensures doc[h + 2 + k].firstLineIndent <==> k == 0
    {
      AssembleBodyAt(HeaderBlock(data.header), bb, AppendixBlock(data.appendix), data.date, data.signature, k);
    }
  }

  /** The appendix, when there is one, comes after a blank paragraph and is
      not indented; a blank paragraph and the date-and-signature line
      close the document. */
  lemma LayoutClosing(data: ArizaData)
    ensures var doc := Layout(data);
      var h := |data.header|;
      var b := |data.body|;
      var a := |data.appendix|;
      && |doc| >= 2
      && (a > 0 ==> doc[h + 2 + b] == EmptyParagraph)
      && (forall k :: 0 <= k < a ==> h + 3 + b + k < |doc| && doc[h + 3 + b + k] == Justified(data.appendix[k], false))
      && doc[|doc| - 2] == EmptyParagraph
      && doc[|doc| - 1] == SignatureLine(data.date, SignatureSpacing, data.signature)
  {
    var doc := Layout(data);
    var ab := AppendixBlock(data.appendix);
    var h := |data.header|;
    var b := |data.body|;
    AssembleClosingAt(HeaderBlock(data.header), BodyBlock(data.body), ab, data.date, data.signature);
    AppendixBlockRule(data.appendix);
    forall k | 0 <= k < |data.appendix|
      ensures h + 3 + b + k < |doc| && doc[h + 3 + b + k] == Justified(data.appendix[k], false)
    {
      assert doc[h + 3 + b + k] == ab[k];
    }
  }



}
