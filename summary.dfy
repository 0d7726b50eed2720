/** The text of the assessment summary dialog (app/components/SummaryModal.tsx): the
    plain-text summary put on the clipboard, the on-screen list of established facts and
    the status banner. */
module Summary {
  import opened Wrappers
  import opened Types

  /** One decision on the way to the result, as the dialog receives it. */
  datatype PathItem = PathItem(question: string, answer: string, statement: Optional<string>)

  /** JavaScript's `s || fallback` on an optional string: an absent or empty string is false. */
  function OrElse(s: Optional<string>, fallback: string): (r: string)
    ensures s.Present? && s.value != "" ==> r == s.value
    ensures s.Absent? || s.value == "" ==> r == fallback
  {
    if s.Present? && s.value != "" then s.value else fallback
  }

  predicate HasStatement(item: PathItem) {
    item.statement.Present? && item.statement.value != ""
  }

  /** The line an item contributes to the copied text. */
  function CopyLine(item: PathItem): (r: string)
    ensures HasStatement(item) ==> r == item.statement.value
    ensures !HasStatement(item) ==> r == item.question + " - " + item.answer
  {
    OrElse(item.statement, item.question + " - " + item.answer)
  }

  /** The line an item shows in the list of established facts. */
  function DisplayLine(item: PathItem): (r: string)
    ensures HasStatement(item) ==> r == item.statement.value
    ensures !HasStatement(item) ==> r == item.question + " (" + item.answer + ")"
  {
    OrElse(item.statement, item.question + " (" + item.answer + ")")
  }

  /** The two fallbacks differ, so the copied line and the displayed line of an item agree
      exactly when the item carries a non-empty statement. */
  lemma CopyLineIsDisplayLineIffStatement(item: PathItem)
    ensures CopyLine(item) == DisplayLine(item) <==> HasStatement(item)
  {
    if !HasStatement(item) {
      var k := |item.question| + 1;
      assert CopyLine(item)[k] == '-';
      assert DisplayLine(item)[k] == '(';
    }
  }

  /** `Array.prototype.join('\n')`. */
  function JoinLines(lines: seq<string>): (r: string)
    ensures lines == [] ==> r == ""
    ensures lines != [] ==> lines[0] <= r
    decreases |lines|
  {
    if |lines| == 0 then ""
    else if |lines| == 1 then lines[0]
    else lines[0] + "\n" + JoinLines(lines[1..])
  }

  /** Appending a line adds exactly one separator and then the line, whatever the lines hold. */
  lemma {:induction false} JoinLinesAppend(lines: seq<string>, l: string)
    requires lines != []
    ensures JoinLines(lines + [l]) == JoinLines(lines) + "\n" + l
    decreases |lines|
  {
    if |lines| > 1 {
      JoinLinesAppend(lines[1..], l);
      assert (lines + [l])[1..] == lines[1..] + [l];
    }
  }

  /** Cutting a string at every newline (JavaScript's `split('\n')`), the inverse of
      `JoinLines` against which its layout is stated. */
  function SplitLines(s: string): (r: seq<string>)
    ensures |r| >= 1
    decreases |s|
  {
    if s == [] then [""]
    else
      var rest := SplitLines(s[1..]);
      if s[0] == '\n' then [""] + rest else [[s[0]] + rest[0]] + rest[1..]
  }

  lemma {:induction false} SplitLinesOfOneLine(a: string)
    requires '\n' !in a
    ensures SplitLines(a) == [a]
    decreases |a|
  {
    if a != [] {
      SplitLinesOfOneLine(a[1..]);
      assert [a[0]] + a[1..] == a;
    }
  }

  lemma {:induction false} SplitLinesAtFirstNewline(a: string, b: string)
    requires '\n' !in a
    ensures SplitLines(a + "\n" + b) == [a] + SplitLines(b)
    decreases |a|
  {
    if a == [] {
      assert a + "\n" + b == ['\n'] + b;
      assert (['\n'] + b)[1..] == b;
    } else {
      SplitLinesAtFirstNewline(a[1..], b);
      assert (a + "\n" + b)[1..] == a[1..] + "\n" + b;
      assert [a[0]] + a[1..] == a;
    }
  }

  /** Joined lines that contain no newline of their own come back, in order, when the text
      is cut at its newlines: one line per entry, one separator between neighbours, none
      before the first or after the last. */
  lemma {:induction false} SplitJoinLines(lines: seq<string>)
    requires lines != []
    requires forall i :: 0 <= i < |lines| ==> '\n' !in lines[i]
    ensures SplitLines(JoinLines(lines)) == lines
    decreases |lines|
  {
    if |lines| == 1 {
      SplitLinesOfOneLine(lines[0]);
    } else {
      SplitJoinLines(lines[1..]);
      SplitLinesAtFirstNewline(lines[0], JoinLines(lines[1..]));
    }
  }

  /** The copied line of every item, in input order. */
  function CopyLines(items: seq<PathItem>): (r: seq<string>)
    ensures |r| == |items|
    ensures forall i :: 0 <= i < |items| ==> r[i] == CopyLine(items[i])
  {
    seq(|items|, i requires 0 <= i < |items| => CopyLine(items[i]))
  }

  /** The block of established facts in the copied text. */
  function Statements(items: seq<PathItem>): (r: string)
    ensures items == [] ==> r == ""
    ensures items != [] ==> CopyLine(items[0]) <= r
  {
    JoinLines(CopyLines(items))
  }

  /** Each item yields exactly one line of the block, in input order, as long as no line
      carries a newline of its own; no items give an empty block. */
  lemma StatementsLayout(items: seq<PathItem>)
    requires forall i :: 0 <= i < |items| ==> '\n' !in CopyLine(items[i])
    ensures items == [] ==> Statements(items) == ""
    ensures items != [] ==> SplitLines(Statements(items)) == CopyLines(items)
  {
    if items != [] {
      SplitJoinLines(CopyLines(items));
    }
  }

  /** The words the copied text uses for each status. */
  function StatusPhrase(status: Status): (r: string)
    ensures r != ""
  {
    if status == Capacity then "Presumption of Capacity Applies"
    else "Client Lacks Capacity (Best Interests Framework)"
  }

  lemma StatusPhrasesDiffer()
    ensures StatusPhrase(Capacity) != StatusPhrase(Incapacity)
  {
  }

  /** The copied text tells the two statuses apart. */
  lemma StatusSectionDistinguishes()
    ensures StatusSection(Present(Capacity)) != StatusSection(Present(Incapacity))
  {
    StatusPhrasesDiffer();
  }

  /** The status sentence of the copied text: nothing when no status is given. */
  function StatusSection(status: Optional<Status>): (r: string)
    ensures status.Absent? ==> r == ""
    ensures status.Present? ==> r == "\n\nCurrent Status: " + StatusPhrase(status.value)
  {
    match status
    case Absent => ""
    case Present(st) => "\n\nCurrent Status: " + StatusPhrase(st)
  }

  /** The status banner of the dialog, whose wording the page spells out a second time. */
  function BannerText(status: Status): (r: string)
    ensures "Current Status: " <= r
  {
    if status == Capacity then "Current Status: " + "Presumption of Capacity Applies"
    else "Current Status: " + "Client Lacks Capacity (Best Interests Framework)"
  }

  /** For either status the banner says what the copied text says. */
  lemma BannerMatchesCopy(status: Status)
    ensures StatusSection(Present(status)) == "\n\n" + BannerText(status)
  {
  }

  /** The clipboard text of the summary. */
  function CopyText(items: seq<PathItem>, status: Optional<Status>, outcome: string,
                    emailTemplate: Optional<string>): (r: string)
    ensures "Assessment Summary:\n\n" + Statements(items) <= r
  {
    var head := "Assessment Summary:\n\n" + Statements(items) + StatusSection(status);
    var outcomePart := "\n\nFinal Outcome: " + outcome + "\n\n";
    head + outcomePart + OrElse(emailTemplate, "")
  }

  predicate EndsWith(s: string, suffix: string) {
    |suffix| <= |s| && s[|s| - |suffix|..] == suffix
  }

  lemma EndsWithAppended(s: string, suffix: string)
    ensures EndsWith(s + suffix, suffix)
  {
    assert (s + suffix)[|s|..] == suffix;
  }

  /** The text opens with the heading; the outcome paragraph follows the fact block and the
      status section directly; the text ends with the outcome paragraph when there is no
      (non-empty) email template, and with the template verbatim otherwise. */
  lemma CopyTextLayout(items: seq<PathItem>, status: Optional<Status>, outcome: string,
                       emailTemplate: Optional<string>)
    ensures var text := CopyText(items, status, outcome, emailTemplate);
      var head := "Assessment Summary:\n\n" + Statements(items) + StatusSection(status);
      var outcomePart := "\n\nFinal Outcome: " + outcome + "\n\n";
      && "Assessment Summary:\n\n" <= text
      && (emailTemplate.Absent? || emailTemplate.value == "" ==>
            EndsWith(text, "Final Outcome: " + outcome + "\n\n") && text == head + outcomePart)
      && (emailTemplate.Present? && emailTemplate.value != "" ==>
            text == head + outcomePart + emailTemplate.value)
  {
    var head := "Assessment Summary:\n\n" + Statements(items) + StatusSection(status);
    var outcomePart := "\n\nFinal Outcome: " + outcome + "\n\n";
    var tail := OrElse(emailTemplate, "");
    assert CopyText(items, status, outcome, emailTemplate) == head + outcomePart + tail;
    if emailTemplate.Absent? || emailTemplate.value == "" {
      var ending := "Final Outcome: " + outcome + "\n\n";
      assert tail == "";
      assert head + outcomePart + tail == head + outcomePart;
      assert outcomePart == "\n\n" + ending;
      assert head + outcomePart == (head + "\n\n") + ending;
      EndsWithAppended(head + "\n\n", ending);
    }
  }
}
