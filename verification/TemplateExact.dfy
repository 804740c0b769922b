/** When a template file is restored, exactly: for the codec of TemplateCodec without JSON captures. */
module TemplateExact {
  import opened Collections
  import opened Formats
  import opened TemplateCodec
  import opened Text
  import opened Wrappers

  /** No capture is written as JSON text. */
  predicate Plain(record: CompiledRecord) {
    forall i :: 0 <= i < |record.captures| ==> !record.captures[i].jsonEncoded
  }

  // ---------------------------------------------------------------- a row tells its texts

  lemma {:induction false} PlainCaptured(captures: seq<Capture>, texts: seq<string>, json: JsonText, start: Values,
      n: nat)
    requires |texts| == |captures| && n <= |captures| && DistinctTargets(captures)
    requires forall i :: 0 <= i < |captures| ==> !captures[i].jsonEncoded
    ensures var values := Captured(captures, texts, json, start, n).0;
            forall i :: 0 <= i < n ==> captures[i].target in values && values[captures[i].target] == texts[i]
    decreases n
  {
    if n > 0 { PlainCaptured(captures, texts, json, start, n - 1); }
  }

  /** A row with the values of a record was read from the texts of the record. */
  lemma RowTellsTexts(fields: seq<Field>, record: CompiledRecord, values: Values, texts: seq<string>, json: JsonText,
      line: nat)
    requires WellFormed(record) && Plain(record) && |texts| == |record.captures|
    requires BuildRow(fields, record, texts, json, line).values == Restored(fields, record, values)
    ensures texts == CaptureTexts(record.captures, values, json)
  {
    var captures, n := record.captures, |record.captures|;
    PlainCaptured(captures, texts, json, Defaults(fields), n);
    OverlayHolds(Defaults(fields), captures, values, n);
    hide Captured, Overlay, Defaults;
    var own := CaptureTexts(captures, values, json);
    forall i | 0 <= i < n ensures texts[i] == own[i] {
      assert own[i] == CaptureText(captures[i], values, json);
    }
  }

  /** A match with the texts of a rendered record ends where the record ends. */
  lemma TextsTellMatch(literals: seq<string>, separator: string, texts: seq<string>, tail: string, m: Match)
    requires |literals| == |texts| + 1 && separator != "" && (tail == "" || StartsAt(tail, separator, 0))
    requires Derives(literals, separator, RenderTexts(literals, texts) + tail, m) && m.texts == texts
    ensures m == RenderedMatch(separator, texts, tail)
  {
    var head := RenderTexts(literals, texts);
    hide RenderTexts;
    var ending := if m.hadSeparator then separator else "";
    Associative(head, ending, m.rest);
    assert (head + tail)[|head|..] == tail && (head + (ending + m.rest))[|head|..] == ending + m.rest;
    assert tail == ending + m.rest;
    if m.hadSeparator { assert (separator + m.rest)[|separator|..] == m.rest; }
  }

  // ---------------------------------------------------------------- one record

  /** If the first row read holds the values of the record in front, the record was readable. */
  lemma FirstRowTells(fields: seq<Field>, record: CompiledRecord, values: Values, tail: string, separator: string,
      json: JsonText, line: nat)
    requires WellFormed(record) && Plain(record) && separator != "" && (tail == "" || StartsAt(tail, separator, 0))
    requires var r := ParseSequence(fields, record, RenderRecord(record, values, json) + tail, separator, json, line);
             r.Ok? && r.value != [] && r.value[0].values == Restored(fields, record, values)
    ensures Delimited(record.literals, separator, CaptureTexts(record.captures, values, json), tail != "")
  {
    var texts := CaptureTexts(record.captures, values, json);
    var content := RenderRecord(record, values, json) + tail;
    var m := MatchTokens(record.literals, separator, content);
    FirstRowOf(fields, record, content, separator, json, line);
    MatchSound(record.literals, separator, content);
    hide ParseSequence, MatchTokens, BuildRow, Derives, RenderTexts, Delimited;
    RowTellsTexts(fields, record, values, m.texts, json, line);
    TextsTellMatch(record.literals, separator, texts, tail, m);
    MatchRendered(record.literals, separator, texts, tail);
  }

  lemma FirstRowOf(fields: seq<Field>, record: CompiledRecord, content: string, separator: string, json: JsonText,
      line: nat)
    requires WellFormed(record) && separator != ""
    requires var r := ParseSequence(fields, record, content, separator, json, line); r.Ok? && r.value != []
    ensures var m := MatchTokens(record.literals, separator, content);
            m.Match? && ParseSequence(fields, record, content, separator, json, line).value[0]
                        == BuildRow(fields, record, m.texts, json, line)
  {
    hide MatchTokens, BuildRow, CountNewlines, WellFormed;
  }

  // ---------------------------------------------------------------- the sequence

  predicate RestoresAll(fields: seq<Field>, record: CompiledRecord, records: seq<Values>, separator: string,
      json: JsonText, line: nat)
    requires WellFormed(record) && separator != ""
  {
    ParseSequence(fields, record, Join(RenderAll(record, records, json), separator), separator, json, line)
      == Ok(RestoredRows(fields, record, records, separator, json, line))
  }

  lemma OneRestored(fields: seq<Field>, record: CompiledRecord, values: Values, separator: string, json: JsonText,
      line: nat)
    requires WellFormed(record) && Plain(record) && separator != ""
    requires RestoresAll(fields, record, [values], separator, json, line)
    ensures Parseable(record, [values], separator, json)
  {
    hide CountNewlines, Delimited, RenderTexts, CaptureTexts;
    var head := RenderRecord(record, values, json);
    assert RenderAll(record, [values], json) == [head] && head + "" == head;
    assert RestoredRows(fields, record, [values], separator, json, line)
      == [RestoredRow(fields, record, values, line)] by {
      assert [values][1..] == [];
    }
    hide RestoredRows, RenderAll;
    assert head != "" by { hide MatchTokens; }
    FirstRowTells(fields, record, values, "", separator, json, line);
  }

  /** Two records or more: the first was readable, and the rest is restored. */
  lemma MoreRestored(fields: seq<Field>, record: CompiledRecord, records: seq<Values>, separator: string,
      json: JsonText, line: nat)
    requires WellFormed(record) && Plain(record) && separator != "" && |records| > 1 && Inverse(json)
    requires RestoresAll(fields, record, records, separator, json, line)
    ensures Delimited(record.literals, separator, CaptureTexts(record.captures, records[0], json), true)
    ensures RestoresAll(fields, record, records[1..], separator, json,
                        line + CountNewlines(RenderRecord(record, records[0], json) + separator))
  {
    hide CountNewlines, Delimited, RenderRecord, CaptureTexts, RestoredRow, ParseSequence, Join, RenderAll, MatchTokens;
    var head, rest := RenderRecord(record, records[0], json), Join(RenderAll(record, records[1..], json), separator);
    var next := line + CountNewlines(head + separator);
    JoinCons(record, records, separator, json);
    PrefixOfConcat(separator, rest);
    var rows := RestoredRows(fields, record, records, separator, json, line);
    var later := RestoredRows(fields, record, records[1..], separator, json, next);
    assert rows == [RestoredRow(fields, record, records[0], line)] + later;
    assert rows[0].values == Restored(fields, record, records[0]) by { RestoredRowIs(fields, record, records[0], line);
      }
    FirstRowTells(fields, record, records[0], separator + rest, separator, json, line);
    NextRecordParses(fields, record, records[0], rest, separator, json, line);
    var more := ParseSequence(fields, record, rest, separator, json, next);
    assert more.Ok?;
    assert ([RestoredRow(fields, record, records[0], line)] + more.value)[1..] == more.value && rows[1..] == later;
  }

  lemma RestoredRowIs(fields: seq<Field>, record: CompiledRecord, values: Values, line: nat)
    ensures RestoredRow(fields, record, values, line).values == Restored(fields, record, values)
  {
  }

  lemma ParseableRestores(fields: seq<Field>, record: CompiledRecord, records: seq<Values>, separator: string,
      json: JsonText, line: nat)
    requires WellFormed(record) && separator != "" && Inverse(json) && Parseable(record, records, separator, json)
    ensures RestoresAll(fields, record, records, separator, json, line)
  {
    SequenceRoundTrip(fields, record, records, separator, json, line);
    hide ParseSequence, RestoredRows, RenderAll, Parseable, Join;
  }

  /** Without JSON captures, joined renderings of records are restored if and only if no text of a record
      ends early and the last record is not rendered as the empty text. */
  lemma {:induction false} SequenceRestoredIff(fields: seq<Field>, record: CompiledRecord, records: seq<Values>,
      separator: string, json: JsonText, line: nat)
    requires WellFormed(record) && Plain(record) && separator != "" && Inverse(json)
    ensures RestoresAll(fields, record, records, separator, json, line) <==> Parseable(record, records, separator, json)
    decreases |records|
  {
    hide RestoresAll, Parseable, Delimited, RenderRecord, CountNewlines, CaptureTexts, WellFormed, Plain;
    if Parseable(record, records, separator, json) {
      ParseableRestores(fields, record, records, separator, json, line);
    }
    if RestoresAll(fields, record, records, separator, json, line) {
      if records == [] {
        NothingParseable(record, separator, json);
      } else if |records| == 1 {
        assert records == [records[0]];
        OneRestored(fields, record, records[0], separator, json, line);
      } else {
        MoreRestored(fields, record, records, separator, json, line);
        SequenceRestoredIff(fields, record, records[1..], separator, json,
                            line + CountNewlines(RenderRecord(record, records[0], json) + separator));
        ParseableCons(record, records, separator, json);
      }
    }
  }

  lemma NothingParseable(record: CompiledRecord, separator: string, json: JsonText)
    requires WellFormed(record)
    ensures Parseable(record, [], separator, json)
  {
  }

  lemma ParseableCons(record: CompiledRecord, records: seq<Values>, separator: string, json: JsonText)
    requires WellFormed(record) && |records| > 1 && Parseable(record, records[1..], separator, json)
    requires Delimited(record.literals, separator, CaptureTexts(record.captures, records[0], json), true)
    ensures Parseable(record, records, separator, json)
  {
    hide Delimited, CaptureTexts, RenderRecord;
    forall i | 0 <= i < |records|
      ensures Delimited(record.literals, separator, CaptureTexts(record.captures, records[i], json), i < |records| - 1)
    {
      if i > 0 {
        assert records[1..][i - 1] == records[i];
        assert Delimited(record.literals, separator, CaptureTexts(record.captures, records[1..][i - 1], json),
                         i - 1 < |records[1..]| - 1);
      }
    }
  }
}
