/** The delimited line codec of backend/internal/service/importexport.go: the printer, the
    quote-aware parser, and the exact condition under which the parser inverts the printer. */
module DelimitedCodec {
  import opened Text

  const QUOTE := '"'

  datatype ParseError = NoError | EmptyDelimiter | UnclosedQuote

  /** What the parser returns: the fields, together with an error. */
  datatype Parsed = Parsed(fields: seq<string>, error: ParseError)

  /** The parser from one position on: `field` is the builder, `inQuotes` the quote flag. */
  function ParseFrom(rest: string, delimiter: string, field: string, inQuotes: bool): (r: Parsed)
    requires delimiter != ""
    decreases |rest|
  {
    if rest == "" then
      Parsed([field], if inQuotes then UnclosedQuote else NoError)
    else if rest[0] == QUOTE then
      if inQuotes && |rest| > 1 && rest[1] == QUOTE then
        ParseFrom(rest[2..], delimiter, field + [QUOTE], true)
      else
        ParseFrom(rest[1..], delimiter, field, !inQuotes)
    else if !inQuotes && StartsAt(rest, delimiter, 0) then
      Prepend(field, ParseFrom(rest[|delimiter|..], delimiter, "", false))
    else
      ParseFrom(rest[1..], delimiter, field + [rest[0]], inQuotes)
  }

  function Prepend(field: string, p: Parsed): Parsed {
    Parsed([field] + p.fields, p.error)
  }

  function ParseLine(line: string, delimiter: string): Parsed {
    if delimiter == "" then Parsed([], EmptyDelimiter)
    else ParseFrom(line, delimiter, "", false)
  }

  /** The scanning loop of the parser. */
  method ParseDelimitedLine(line: string, delimiter: string) returns (fields: seq<string>, error: ParseError)
    ensures Parsed(fields, error) == ParseLine(line, delimiter)
    ensures error == EmptyDelimiter <==> delimiter == ""
    ensures delimiter != "" ==> |fields| >= 1
  {
    fields := [];
    if delimiter == "" {
      return fields, EmptyDelimiter;
    }
    var field, inQuotes, index := "", false, 0;
    while index < |line|
      invariant 0 <= index <= |line|
      invariant var p := ParseFrom(line[index..], delimiter, field, inQuotes);
                ParseLine(line, delimiter) == Parsed(fields + p.fields, p.error)
    {
      var rest := line[index..];
      if line[index] == QUOTE {
        if inQuotes && index + 1 < |line| && line[index + 1] == QUOTE {
          assert rest[2..] == line[index + 2..];
          field := field + [QUOTE];
          index := index + 2;
          continue;
        }
        assert rest[1..] == line[index + 1..];
        inQuotes := !inQuotes;
        index := index + 1;
        continue;
      }
      if !inQuotes && StartsAt(line, delimiter, index) {
        assert rest[..|delimiter|] == line[index..index + |delimiter|];
        assert rest[|delimiter|..] == line[index + |delimiter|..];
        ghost var p := ParseFrom(line[index + |delimiter|..], delimiter, "", false);
        assert fields + ([field] + p.fields) == (fields + [field]) + p.fields;
        fields := fields + [field];
        field := "";
        index := index + |delimiter|;
        continue;
      }
      assert !inQuotes ==> !StartsAt(rest, delimiter, 0) by {
        if StartsAt(rest, delimiter, 0) {
          assert rest[..|delimiter|] == line[index..index + |delimiter|];
        }
      }
      assert rest[1..] == line[index + 1..];
      field := field + [line[index]];
      index := index + 1;
    }
    fields := fields + [field];
    error := if inQuotes then UnclosedQuote else NoError;
  }

  /** strings.ReplaceAll(value, `"`, `""`) */
  function Doubled(value: string): string {
    if value == "" then ""
    else (if value[0] == QUOTE then [QUOTE, QUOTE] else [value[0]]) + Doubled(value[1..])
  }

  predicate NeedsQuotes(value: string, delimiter: string) {
    Contains(value, delimiter) || QUOTE in value || '\r' in value || '\n' in value
  }

  function EncodeField(value: string, delimiter: string): string {
    if NeedsQuotes(value, delimiter) then [QUOTE] + Doubled(value) + [QUOTE] else value
  }

  function EncodeFields(values: seq<string>, delimiter: string): (escaped: seq<string>)
    ensures |escaped| == |values|
    ensures forall i :: 0 <= i < |values| ==> escaped[i] == EncodeField(values[i], delimiter)
  {
    seq(|values|, i requires 0 <= i < |values| => EncodeField(values[i], delimiter))
  }

  function EncodeLine(values: seq<string>, delimiter: string): string {
    Join(EncodeFields(values, delimiter), delimiter)
  }

  /** The escaping loop of the printer. */
  method EncodeDelimitedLine(values: seq<string>, delimiter: string) returns (line: string)
    ensures line == EncodeLine(values, delimiter)
  {
    var escaped := new string[|values|](_ => "");
    for index := 0 to |values|
      invariant forall i :: 0 <= i < index ==> escaped[i] == EncodeField(values[i], delimiter)
    {
      var value := values[index];
      if Contains(value, delimiter) || QUOTE in value || '\r' in value || '\n' in value {
        value := [QUOTE] + Doubled(value) + [QUOTE];
      }
      escaped[index] := value;
    }
    assert escaped[..] == EncodeFields(values, delimiter);
    line := Join(escaped[..], delimiter);
  }

  // ---------------------------------------------------------------- one field

  /** Inside quotes the parser undoes the doubling and stops at the closing quote. */
  lemma {:induction false} ParseDoubled(value: string, tail: string, delimiter: string, field: string)
    requires delimiter != ""
    requires tail == "" || tail[0] != QUOTE
    ensures ParseFrom(Doubled(value) + [QUOTE] + tail, delimiter, field, true)
         == ParseFrom(tail, delimiter, field + value, false)
    decreases |value|
  {
    var rest := Doubled(value) + [QUOTE] + tail;
    if value == "" {
      assert rest[1..] == tail;
      assert field + value == field;
    } else {
      var inner := Doubled(value[1..]) + [QUOTE] + tail;
      assert field + value == (field + [value[0]]) + value[1..];
      if value[0] == QUOTE {
        assert rest[2..] == inner;
      } else {
        assert rest[1..] == inner;
      }
      ParseDoubled(value[1..], tail, delimiter, field + [value[0]]);
    }
  }

  lemma ParseQuotedField(value: string, tail: string, delimiter: string)
    requires delimiter != ""
    requires tail == "" || tail[0] != QUOTE
    ensures ParseFrom([QUOTE] + Doubled(value) + [QUOTE] + tail, delimiter, "", false)
         == ParseFrom(tail, delimiter, value, false)
  {
    var rest := [QUOTE] + Doubled(value) + [QUOTE] + tail;
    assert rest[1..] == Doubled(value) + [QUOTE] + tail;
    ParseDoubled(value, tail, delimiter, "");
    assert "" + value == value;
  }

  /** Outside quotes the parser copies text up to the first delimiter. */
  lemma {:induction false} ParseCopies(rest: string, delimiter: string, field: string, k: nat)
    requires delimiter != "" && k <= |rest| && QUOTE !in rest[..k]
    requires forall j :: 0 <= j < k ==> !StartsAt(rest, delimiter, j)
    ensures ParseFrom(rest, delimiter, field, false) == ParseFrom(rest[k..], delimiter, field + rest[..k], false)
    decreases k
  {
    if k == 0 {
      assert rest[0..] == rest && field + rest[..0] == field;
    } else {
      assert rest[0] != QUOTE && !StartsAt(rest, delimiter, 0);
      forall j | 0 <= j < k - 1 ensures !StartsAt(rest[1..], delimiter, j) {
        assert !StartsAt(rest, delimiter, 1 + j);
        if 1 + j + |delimiter| <= |rest| { StartsAtShift(rest, 1, delimiter, j); }
      }
      assert QUOTE !in rest[1..][..k - 1] by {
        assert rest[1..][..k - 1] == rest[..k][1..];
      }
      ParseCopies(rest[1..], delimiter, field + [rest[0]], k - 1);
      assert rest[1..][k - 1..] == rest[k..];
      assert (field + [rest[0]]) + rest[1..][..k - 1] == field + rest[..k];
    }
  }

  lemma ParseAtDelimiter(tail: string, delimiter: string, field: string)
    requires delimiter != "" && QUOTE !in delimiter
    ensures ParseFrom(delimiter + tail, delimiter, field, false)
            == Prepend(field, ParseFrom(tail, delimiter, "", false))
  {
    var rest := delimiter + tail;
    assert rest[0] == delimiter[0] && rest[0] != QUOTE;
    assert rest[..|delimiter|] == delimiter && rest[|delimiter|..] == tail;
  }

  /** The first field the parser sees in an unquoted value followed by the delimiter: the
      value up to the first delimiter in value + delimiter. */
  lemma ParseUnquotedField(value: string, tail: string, delimiter: string, k: nat)
    requires delimiter != "" && QUOTE !in delimiter && QUOTE !in value
    requires FirstAt(value + delimiter, delimiter, k)
    ensures k <= |value|
    ensures ParseFrom(value + delimiter + tail, delimiter, "", false)
         == Prepend(value[..k], ParseFrom((value + delimiter + tail)[k + |delimiter|..], delimiter, "", false))
  {
    var rest := value + delimiter + tail;
    assert rest == (value + delimiter) + tail;
    forall j | 0 <= j <= k ensures StartsAt(rest, delimiter, j) <==> StartsAt(value + delimiter, delimiter, j) {
      StartsAtExtends(value + delimiter, tail, delimiter, j);
    }
    assert rest[..k] == value[..k];
    ParseCopies(rest, delimiter, "", k);
    assert "" + rest[..k] == value[..k];
    assert rest[k..] == delimiter + rest[k + |delimiter|..] by {
      assert rest[k..][..|delimiter|] == rest[k..k + |delimiter|] == delimiter;
      assert rest[k..][|delimiter|..] == rest[k + |delimiter|..];
    }
    ParseAtDelimiter(rest[k + |delimiter|..], delimiter, value[..k]);
  }

  // ---------------------------------------------------------------- one line

  /** The exact round-trip condition on a list of values. */
  predicate Separable(value: string, delimiter: string) {
    NeedsQuotes(value, delimiter) || FirstAt(value + delimiter, delimiter, |value|)
  }

  predicate LineSeparable(values: seq<string>, delimiter: string) {
    forall i :: 0 <= i < |values| - 1 ==> Separable(values[i], delimiter)
  }

  lemma EncodeLineCons(values: seq<string>, delimiter: string)
    requires |values| > 1
    ensures EncodeLine(values, delimiter)
            == EncodeField(values[0], delimiter) + delimiter + EncodeLine(values[1..], delimiter)
  {
    assert EncodeFields(values, delimiter)[1..] == EncodeFields(values[1..], delimiter);
  }

  lemma LineSeparableCons(values: seq<string>, delimiter: string)
    requires |values| > 1
    ensures LineSeparable(values, delimiter) <==>
            Separable(values[0], delimiter) && LineSeparable(values[1..], delimiter)
  {
    if Separable(values[0], delimiter) && LineSeparable(values[1..], delimiter) {
      forall i | 0 <= i < |values| - 1 ensures Separable(values[i], delimiter) {
        assert i > 0 ==> values[i] == values[1..][i - 1];
      }
    }
  }

  lemma PrependCons(values: seq<string>, p: Parsed)
    requires values != []
    ensures Prepend(values[0], p) == Parsed(values, NoError) <==> p == Parsed(values[1..], NoError)
  {
    assert ([values[0]] + p.fields)[1..] == p.fields;
    assert values == [values[0]] + values[1..];
  }

  lemma ParseLastField(value: string, delimiter: string)
    requires delimiter != "" && QUOTE !in delimiter
    ensures ParseLine(EncodeField(value, delimiter), delimiter) == Parsed([value], NoError)
  {
    if NeedsQuotes(value, delimiter) {
      ParseQuotedField(value, "", delimiter);
      assert EncodeField(value, delimiter) == [QUOTE] + Doubled(value) + [QUOTE] + "";
    } else {
      assert value[..|value|] == value && value[|value|..] == "" && "" + value == value;
      ParseCopies(value, delimiter, "", |value|);
    }
  }

  /** A separable first field is read back whole, and parsing resumes after its delimiter. */
  lemma ParseSeparableField(value: string, tail: string, delimiter: string)
    requires delimiter != "" && QUOTE !in delimiter && Separable(value, delimiter)
    ensures ParseFrom(EncodeField(value, delimiter) + delimiter + tail, delimiter, "", false)
         == Prepend(value, ParseFrom(tail, delimiter, "", false))
  {
    if NeedsQuotes(value, delimiter) {
      assert EncodeField(value, delimiter) + delimiter + tail
        == [QUOTE] + Doubled(value) + [QUOTE] + (delimiter + tail);
      ParseQuotedField(value, delimiter + tail, delimiter);
      ParseAtDelimiter(tail, delimiter, value);
    } else {
      ParseUnquotedField(value, tail, delimiter, |value|);
      assert value[..|value|] == value;
      assert (value + delimiter + tail)[|value| + |delimiter|..] == tail;
    }
  }

  /** An inseparable first field is cut short, whatever follows it. */
  lemma ParseInseparableField(value: string, tail: string, delimiter: string)
    requires delimiter != "" && QUOTE !in delimiter && !Separable(value, delimiter)
    ensures var p := ParseFrom(EncodeField(value, delimiter) + delimiter + tail, delimiter, "", false);
            p.fields != [] && p.fields[0] < value
  {
    assert StartsAt(value + delimiter, delimiter, |value|);
    var k := LeftmostOccurrence(value + delimiter, delimiter, |value|);
    ParseUnquotedField(value, tail, delimiter, k);
    assert k < |value|;
  }

  /** Round trip, exact: the parser returns the printed values without an error if and only if
      every non-final value that is written unquoted meets the delimiter first at its own end. */
  lemma {:induction false} LineRoundTrip(values: seq<string>, delimiter: string)
    requires delimiter != "" && QUOTE !in delimiter && values != []
    ensures ParseLine(EncodeLine(values, delimiter), delimiter) == Parsed(values, NoError)
       <==> LineSeparable(values, delimiter)
    decreases |values|
  {
    var line := EncodeLine(values, delimiter);
    if |values| == 1 {
      ParseLastField(values[0], delimiter);
      assert values == [values[0]];
    } else {
      var tail := EncodeLine(values[1..], delimiter);
      EncodeLineCons(values, delimiter);
      if Separable(values[0], delimiter) {
        ParseSeparableField(values[0], tail, delimiter);
        LineRoundTrip(values[1..], delimiter);
        PrependCons(values, ParseLine(tail, delimiter));
        LineSeparableCons(values, delimiter);
      } else {
        ParseInseparableField(values[0], tail, delimiter);
        assert !LineSeparable(values, delimiter);
      }
    }
  }

  // ---------------------------------------------------------------- which delimiters are safe

  /** A proper non-empty prefix of the delimiter is also a suffix of it. */
  predicate HasBorder(delimiter: string) {
    exists b :: 0 < b < |delimiter| && delimiter[..b] == delimiter[|delimiter| - b..]
  }

  /** A delimiter that begins inside the value and ends inside the real delimiter. */
  lemma OverlapIsBorder(value: string, delimiter: string, j: nat)
    requires j < |value| < j + |delimiter| && StartsAt(value + delimiter, delimiter, j)
    ensures HasBorder(delimiter)
  {
    var text, b := value + delimiter, j + |delimiter| - |value|;
    assert delimiter[|delimiter| - b..] == text[j..j + |delimiter|][|value| - j..];
    assert delimiter[..b] == text[|value|..|value| + b];
  }

  lemma BorderlessIsSeparable(value: string, delimiter: string)
    requires delimiter != "" && !HasBorder(delimiter)
    ensures Separable(value, delimiter)
  {
    if !NeedsQuotes(value, delimiter) {
      var text := value + delimiter;
      assert text[|value|..|value| + |delimiter|] == delimiter;
      forall j | 0 <= j < |value| ensures !StartsAt(text, delimiter, j) {
        if StartsAt(text, delimiter, j) {
          if j + |delimiter| <= |value| {
            StartsAtExtends(value, delimiter, delimiter, j);
          } else {
            OverlapIsBorder(value, delimiter, j);
          }
        }
      }
    }
  }

  /** A delimiter round-trips every list of values if and only if it has no border. */
  lemma DelimiterAlwaysSafeIff(delimiter: string)
    requires delimiter != "" && QUOTE !in delimiter && '\r' !in delimiter && '\n' !in delimiter
    ensures (forall values: seq<string> | values != [] ::
               ParseLine(EncodeLine(values, delimiter), delimiter) == Parsed(values, NoError))
       <==> !HasBorder(delimiter)
  {
    if HasBorder(delimiter) {
      var b :| 0 < b < |delimiter| && delimiter[..b] == delimiter[|delimiter| - b..];
      var value := delimiter[..|delimiter| - b];
      assert value + delimiter[..b] == delimiter;
      assert (value + delimiter)[0..|delimiter|] == value + delimiter[..b];
      assert StartsAt(value + delimiter, delimiter, 0);
      LineRoundTrip([value, ""], delimiter);
      assert !Separable([value, ""][0], delimiter);
    } else {
      forall values: seq<string> | values != []
        ensures ParseLine(EncodeLine(values, delimiter), delimiter) == Parsed(values, NoError)
      {
        forall i | 0 <= i < |values| - 1 ensures Separable(values[i], delimiter) {
          BorderlessIsSeparable(values[i], delimiter);
        }
        LineRoundTrip(values, delimiter);
      }
    }
  }

  /** The delimiter of both shipped formats. */
  const BUILTIN_DELIMITER := "----"

  lemma BuiltinSeparable(value: string)
    requires !NeedsQuotes(value, BUILTIN_DELIMITER)
    ensures FirstAt(value + BUILTIN_DELIMITER, BUILTIN_DELIMITER, |value|) <==> value == "" || value[|value| - 1] != '-'
  {
    var d := BUILTIN_DELIMITER;
    var text := value + d;
    var n := |value|;
    assert text[n..n + 4] == d;
    if n > 0 && value[n - 1] == '-' {
      assert text[n - 1..n - 1 + 4] == d;
      assert StartsAt(text, d, n - 1);
    } else {
      forall j | 0 <= j < n ensures !StartsAt(text, d, j) {
        if j + 4 <= n {
          StartsAtExtends(value, d, d, j);
        } else {
          assert text[j..j + 4][n - 1 - j] == value[n - 1] && d[n - 1 - j] == '-';
        }
      }
    }
  }

  /** For the shipped delimiter, a line round-trips exactly when no non-final unquoted value
      ends in a dash. */
  lemma BuiltinRoundTrip(values: seq<string>)
    requires values != []
    ensures ParseLine(EncodeLine(values, BUILTIN_DELIMITER), BUILTIN_DELIMITER) == Parsed(values, NoError)
       <==> forall i :: 0 <= i < |values| - 1 && !NeedsQuotes(values[i], BUILTIN_DELIMITER) ==>
                          values[i] == "" || values[i][|values[i]| - 1] != '-'
  {
    LineRoundTrip(values, BUILTIN_DELIMITER);
    forall i | 0 <= i < |values| - 1 && !NeedsQuotes(values[i], BUILTIN_DELIMITER)
      ensures Separable(values[i], BUILTIN_DELIMITER) <==> values[i] == "" || values[i][|values[i]| - 1] != '-'
    {
      BuiltinSeparable(values[i]);
    }
  }
}
