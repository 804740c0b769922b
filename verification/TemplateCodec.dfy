/** The template codec of backend/internal/service/importexport.go. A compiled record is a list of
    literals with lazy captures between them; the regular expression the source builds from it is
    modelled as a backtracking leftmost-first matcher for exactly that shape. */
module TemplateCodec {
  import opened Collections
  import opened Formats
  import opened Text
  import opened Wrappers

  /** JSON text of a string and the value read back from JSON text. */
  datatype JsonText = JsonText(encode: string -> string, decode: string -> Option<string>)

  ghost predicate Inverse(json: JsonText) {
    forall v: string :: json.decode(json.encode(v)) == Some(v)
  }

  datatype Capture = Capture(name: string, target: string, jsonEncoded: bool)

  /** literals[0] {{captures[0]}} literals[1] ... {{captures[n-1]}} literals[n] */
  datatype CompiledRecord = CompiledRecord(literals: seq<string>, captures: seq<Capture>)

  predicate DistinctTargets(captures: seq<Capture>) {
    forall i, j :: 0 <= i < j < |captures| ==> captures[i].target != captures[j].target
  }

  predicate SeparatedLiterals(literals: seq<string>) {
    forall i :: 1 <= i < |literals| - 1 ==> literals[i] != ""
  }

  predicate WellFormed(record: CompiledRecord) {
    && |record.literals| == |record.captures| + 1
    && record.captures != []
    && SeparatedLiterals(record.literals)
    && DistinctTargets(record.captures)
  }

  // ---------------------------------------------------------------- compilation

  datatype CompileError =
    NoVariable | AdjacentVariables | UnmappedVariable(name: string) | DuplicateTarget(target: string)

  /** The scan over the variables of a record source, already split into the literals around
      them; `resolve` is the lookup of a variable name among the format fields. */
  method CompileRecord(literals: seq<string>, names: seq<string>, resolve: string -> Option<Capture>)
      returns (r: Result<CompiledRecord, CompileError>)
    requires |literals| == |names| + 1
    ensures r.Ok? <==>
            && names != []
            && SeparatedLiterals(literals)
            && (forall i :: 0 <= i < |names| ==> resolve(names[i]).Some?)
            && (forall i, j :: 0 <= i < j < |names| ==>
                  resolve(names[i]).Some? && resolve(names[j]).Some? ==>
                  resolve(names[i]).value.target != resolve(names[j]).value.target)
    ensures r.Ok? ==>
            && WellFormed(r.value)
            && r.value.literals == literals
            && forall i :: 0 <= i < |names| ==> resolve(names[i]) == Some(r.value.captures[i])
  {
    if names == [] {
      return Err(NoVariable);
    }
    var captures: seq<Capture> := [];
    var seenTargets: set<string> := {};
    for index := 0 to |names|
      invariant |captures| == index
      invariant forall i :: 1 <= i < index ==> literals[i] != ""
      invariant forall i :: 0 <= i < index ==> resolve(names[i]) == Some(captures[i])
      invariant seenTargets == set c | c in captures :: c.target
      invariant DistinctTargets(captures)
    {
      if index > 0 && literals[index] == "" {
        return Err(AdjacentVariables);
      }
      var resolved := resolve(names[index]);
      if resolved == None {
        return Err(UnmappedVariable(names[index]));
      }
      var capture := resolved.value;
      if capture.target in seenTargets {
        ghost var c :| c in captures && c.target == capture.target;
        ghost var i :| 0 <= i < |captures| && captures[i] == c;
        assert resolve(names[i]).value.target == resolve(names[index]).value.target;
        return Err(DuplicateTarget(capture.target));
      }
      seenTargets := seenTargets + {capture.target};
      captures := captures + [capture];
    }
    r := Ok(CompiledRecord(literals, captures));
  }

  // ---------------------------------------------------------------- rendering

  /** The text of a record whose captures hold `texts`. */
  function RenderTexts(literals: seq<string>, texts: seq<string>): string
    requires |literals| == |texts| + 1
  {
    if texts == [] then literals[0]
    else literals[0] + texts[0] + RenderTexts(literals[1..], texts[1..])
  }

  function CaptureText(capture: Capture, values: Values, json: JsonText): string {
    var value := ValueOf(values, capture.target);
    if capture.jsonEncoded then json.encode(value) else value
  }

  function CaptureTexts(captures: seq<Capture>, values: Values, json: JsonText): (texts: seq<string>)
    ensures |texts| == |captures|
    ensures forall i :: 0 <= i < |captures| ==> texts[i] == CaptureText(captures[i], values, json)
  {
    if captures == [] then []
    else [CaptureText(captures[0], values, json)] + CaptureTexts(captures[1..], values, json)
  }

  function RenderRecord(record: CompiledRecord, values: Values, json: JsonText): string
    requires WellFormed(record)
  {
    RenderTexts(record.literals, CaptureTexts(record.captures, values, json))
  }

  lemma {:induction false} RenderTextsSnoc(literals: seq<string>, texts: seq<string>, text: string, literal: string)
    requires |literals| == |texts| + 1
    ensures RenderTexts(literals + [literal], texts + [text]) == RenderTexts(literals, texts) + text + literal
    decreases |texts|
  {
    if texts == [] {
      assert (literals + [literal])[1..] == [literal];
    } else {
      assert (literals + [literal])[1..] == literals[1..] + [literal];
      assert (texts + [text])[1..] == texts[1..] + [text];
      RenderTextsSnoc(literals[1..], texts[1..], text, literal);
    }
  }

  /** The builder loop of the printer. */
  method RenderCompiledTemplateRecord(record: CompiledRecord, values: Values, json: JsonText) returns (rendered: string)
    requires WellFormed(record)
    ensures rendered == RenderRecord(record, values, json)
  {
    ghost var texts := CaptureTexts(record.captures, values, json);
    rendered := record.literals[0];
    for index := 0 to |record.captures|
      invariant rendered == RenderTexts(record.literals[..index + 1], texts[..index])
    {
      var capture := record.captures[index];
      var value := ValueOf(values, capture.target);
      if capture.jsonEncoded {
        value := json.encode(value);
      }
      RenderTextsSnoc(record.literals[..index + 1], texts[..index], value, record.literals[index + 1]);
      assert record.literals[..index + 2] == record.literals[..index + 1] + [record.literals[index + 1]];
      assert texts[..index + 1] == texts[..index] + [value];
      rendered := rendered + value + record.literals[index + 1];
    }
    assert record.literals[..|record.literals|] == record.literals && texts[..|texts|] == texts;
  }

  // ---------------------------------------------------------------- matching

  /** One match of ^(?:record)(?:(separator)|$): the captured texts, whether the separator
      group took part, and the content after the match. */
  datatype Match = NoMatch | Match(texts: seq<string>, hadSeparator: bool, rest: string)

  function MatchTokens(literals: seq<string>, separator: string, s: string): (m: Match)
    requires literals != [] && separator != ""
    ensures m.Match? ==> |m.texts| == |literals| - 1
    ensures m.Match? && m.hadSeparator ==> |m.rest| < |s|
    ensures m.Match? && !m.hadSeparator ==> m.rest == ""
    decreases |literals|, 0
  {
    if !StartsAt(s, literals[0], 0) then NoMatch
    else
      var rest := s[|literals[0]|..];
      if |literals| == 1 then
        if StartsAt(rest, separator, 0) then Match([], true, rest[|separator|..])
        else if rest == "" then Match([], false, "")
        else NoMatch
      else
        MatchLazy(literals[1..], separator, rest, 0)
  }

  /** A lazy capture: the shortest text after which the remaining tokens match. */
  function MatchLazy(literals: seq<string>, separator: string, s: string, k: nat): (m: Match)
    requires literals != [] && separator != "" && k <= |s|
    ensures m.Match? ==> |m.texts| == |literals|
    ensures m.Match? && m.hadSeparator ==> |m.rest| < |s|
    ensures m.Match? && !m.hadSeparator ==> m.rest == ""
    decreases |literals|, 1 + |s| - k
  {
    var m := MatchTokens(literals, separator, s[k..]);
    if m.Match? then m.(texts := [s[..k]] + m.texts)
    else if k < |s| then MatchLazy(literals, separator, s, k + 1)
    else NoMatch
  }

  /** What it means that the pattern matches `s` with these captures. */
  predicate Derives(literals: seq<string>, separator: string, s: string, m: Match)
    requires literals != []
  {
    && m.Match?
    && |m.texts| == |literals| - 1
    && s == RenderTexts(literals, m.texts) + (if m.hadSeparator then separator else "") + m.rest
    && (m.hadSeparator || m.rest == "")
  }

  /** Leftmost-first order on captures: an earlier shorter text wins. */
  predicate Preferred(a: seq<string>, b: seq<string>)
    requires |a| == |b|
  {
    a == [] || |a[0]| < |b[0]| || (a[0] == b[0] && Preferred(a[1..], b[1..]))
  }

  lemma {:induction false} LazySound(literals: seq<string>, separator: string, s: string, k: nat)
    requires literals != [] && separator != "" && k <= |s|
    ensures var m := MatchLazy(literals, separator, s, k);
            m.Match? ==> |m.texts[0]| >= k && m.texts[0] <= s
                         && MatchTokens(literals, separator, s[|m.texts[0]|..]) == m.(texts := m.texts[1..])
    decreases |s| - k
  {
    var m := MatchTokens(literals, separator, s[k..]);
    if m.Match? {
      assert ([s[..k]] + m.texts)[1..] == m.texts;
    } else if k < |s| {
      LazySound(literals, separator, s, k + 1);
    }
  }

  lemma {:induction false} LazyFindsShortest(literals: seq<string>, separator: string, s: string, k: nat, n: nat)
    requires literals != [] && separator != "" && k <= n <= |s|
    requires MatchTokens(literals, separator, s[n..]).Match?
    ensures var m := MatchLazy(literals, separator, s, k); m.Match? && |m.texts[0]| <= n
    decreases n - k
  {
    var m := MatchTokens(literals, separator, s[k..]);
    if m.Match? {
      assert ([s[..k]] + m.texts)[0] == s[..k];
    } else {
      LazyFindsShortest(literals, separator, s, k + 1, n);
    }
  }

  /** A match of the remaining tokens, one literal and one text later. */
  lemma DerivesCons(literals: seq<string>, separator: string, s: string, m: Match, inner: string)
    requires |literals| > 1 && m.Match? && |m.texts| == |literals| - 1
    requires s == literals[0] + m.texts[0] + inner
    ensures Derives(literals, separator, s, m) <==> Derives(literals[1..], separator, inner, m.(texts := m.texts[1..]))
  {
    var ending := (if m.hadSeparator then separator else "") + m.rest;
    var rendered := RenderTexts(literals[1..], m.texts[1..]);
    assert RenderTexts(literals, m.texts) + (if m.hadSeparator then separator else "") + m.rest
        == (literals[0] + m.texts[0]) + (rendered + ending);
    assert rendered + (if m.hadSeparator then separator else "") + m.rest == rendered + ending;
    assert s[|literals[0] + m.texts[0]|..] == inner;
    assert ((literals[0] + m.texts[0]) + (rendered + ending))[|literals[0] + m.texts[0]|..] == rendered + ending;
  }

  /** Every match the matcher reports is a match of the pattern. */
  lemma {:induction false} MatchSound(literals: seq<string>, separator: string, s: string)
    requires literals != [] && separator != ""
    ensures var m := MatchTokens(literals, separator, s); m.Match? ==> Derives(literals, separator, s, m)
    decreases |literals|
  {
    var m := MatchTokens(literals, separator, s);
    if m.Match? {
      var rest := s[|literals[0]|..];
      assert s == literals[0] + rest;
      if |literals| == 1 {
        assert m.hadSeparator ==> rest == separator + m.rest;
      } else {
        LazySound(literals[1..], separator, rest, 0);
        var inner := rest[|m.texts[0]|..];
        assert rest == m.texts[0] + inner;
        MatchSound(literals[1..], separator, inner);
        Associative(literals[0], m.texts[0], inner);
        hide Derives;
        DerivesCons(literals, separator, s, m, inner);
      }
    }
  }

  /** The matcher finds a match whenever the pattern has one, and the match it reports is
      preferred to all others. */
  lemma {:induction false} MatchLeftmostFirst(literals: seq<string>, separator: string, s: string, d: Match)
    requires literals != [] && separator != "" && Derives(literals, separator, s, d)
    ensures var m := MatchTokens(literals, separator, s); m.Match? && Preferred(m.texts, d.texts)
    decreases |literals|
  {
    var ending := (if d.hadSeparator then separator else "") + d.rest;
    if |literals| == 1 {
      Associative(literals[0], if d.hadSeparator then separator else "", d.rest);
      PrefixOfConcat(literals[0], ending);
    } else {
      var rendered := RenderTexts(literals[1..], d.texts[1..]);
      Associative(RenderTexts(literals, d.texts), if d.hadSeparator then separator else "", d.rest);
      RenderPeel(literals, d.texts, ending);
      var rest, inner := s[|literals[0]|..], rendered + ending;
      PrefixOfConcat(d.texts[0], inner);
      Associative(rendered, if d.hadSeparator then separator else "", d.rest);
      MatchLeftmostFirst(literals[1..], separator, inner, d.(texts := d.texts[1..]));
      LazyFindsShortest(literals[1..], separator, rest, 0, |d.texts[0]|);
      LazySound(literals[1..], separator, rest, 0);
      ShorterIsPreferred(MatchLazy(literals[1..], separator, rest, 0).texts, d.texts, rest);
    }
  }

  lemma ShorterIsPreferred(a: seq<string>, b: seq<string>, s: string)
    requires |a| == |b| && a != [] && a[0] <= s && b[0] <= s && |a[0]| <= |b[0]|
    requires |a[0]| == |b[0]| ==> Preferred(a[1..], b[1..])
    ensures Preferred(a, b)
  {
    assert a[0] == s[..|a[0]|] && b[0] == s[..|b[0]|];
  }

  // ---------------------------------------------------------------- one record back

  /** What follows capture i occurs in it already at offset j: its literal or, for the last capture, the
      literal with the separator; `more` says whether another record follows. */
  predicate EndsEarly(literals: seq<string>, separator: string, texts: seq<string>, more: bool, i: nat, j: nat)
    requires |literals| == |texts| + 1 && i < |texts|
  {
    if i < |texts| - 1 then StartsAt(texts[i] + literals[i + 1], literals[i + 1], j)
    else StartsAt(texts[i] + literals[i + 1] + (if more then separator else ""), literals[i + 1] + separator, j)
  }

  /** No text ends early. */
  predicate Delimited(literals: seq<string>, separator: string, texts: seq<string>, more: bool)
    requires |literals| == |texts| + 1
  {
    forall i, j :: 0 <= i < |texts| && 0 <= j < |texts[i]| ==> !EndsEarly(literals, separator, texts, more, i, j)
  }

  lemma {:induction false} LazySkips(literals: seq<string>, separator: string, s: string, k: nat, n: nat)
    requires literals != [] && separator != "" && k <= n <= |s|
    requires forall j :: k <= j < n ==> MatchTokens(literals, separator, s[j..]).NoMatch?
    ensures MatchLazy(literals, separator, s, k) == MatchLazy(literals, separator, s, n)
    decreases n - k
  {
    if k < n {
      LazySkips(literals, separator, s, k + 1, n);
    }
  }

  lemma DelimitedCons(literals: seq<string>, separator: string, texts: seq<string>, more: bool)
    requires |literals| == |texts| + 1 && texts != []
    ensures Delimited(literals, separator, texts, more)
       <==> (forall j :: 0 <= j < |texts[0]| ==> !EndsEarly(literals, separator, texts, more, 0, j))
            && Delimited(literals[1..], separator, texts[1..], more)
  {
    assert forall i, j :: 0 <= i < |texts| - 1 && 0 <= j < |texts[1..][i]| ==>
             EndsEarly(literals[1..], separator, texts[1..], more, i, j)
               == EndsEarly(literals, separator, texts, more, i + 1, j);
    hide EndsEarly;
    if (forall j :: 0 <= j < |texts[0]| ==> !EndsEarly(literals, separator, texts, more, 0, j))
       && Delimited(literals[1..], separator, texts[1..], more) {
      forall i, j | 0 <= i < |texts| && 0 <= j < |texts[i]| ensures !EndsEarly(literals, separator, texts, more, i, j) {
        if i > 0 {
          assert texts[1..][i - 1] == texts[i] && !EndsEarly(literals[1..], separator, texts[1..], more, i - 1, j);
        }
      }
    }
    if Delimited(literals, separator, texts, more) {
      forall i, j | 0 <= i < |texts| - 1 && 0 <= j < |texts[1..][i]|
        ensures !EndsEarly(literals[1..], separator, texts[1..], more, i, j)
      {
        assert !EndsEarly(literals, separator, texts, more, i + 1, j);
      }
    }
  }

  /** A rendered record with its tail, after the first literal: the first text and the rest. */
  lemma RenderPeel(literals: seq<string>, texts: seq<string>, tail: string)
    requires |literals| == |texts| + 1 && texts != []
    ensures var s, inner := RenderTexts(literals, texts) + tail, RenderTexts(literals[1..], texts[1..]) + tail;
            && StartsAt(s, literals[0], 0)
            && s[|literals[0]|..] == texts[0] + inner
  {
    var rendered := RenderTexts(literals[1..], texts[1..]);
    Associative(literals[0] + texts[0], rendered, tail);
    Associative(literals[0], texts[0], rendered + tail);
    PrefixOfConcat(literals[0], texts[0] + (rendered + tail));
  }

  /** A lazy capture takes n characters exactly when the remaining tokens match there and not before. */
  lemma LazyExact(literals: seq<string>, separator: string, s: string, n: nat)
    requires literals != [] && separator != "" && n <= |s| && MatchTokens(literals, separator, s[n..]).Match?
    ensures var m := MatchLazy(literals, separator, s, 0);
            && m.Match? && |m.texts| == |literals|
            && (|m.texts[0]| == n <==> forall j :: 0 <= j < n ==> MatchTokens(literals, separator, s[j..]).NoMatch?)
            && (|m.texts[0]| == n ==>
                  m == MatchTokens(literals, separator,
                    s[n..]).(texts := [s[..n]] + MatchTokens(literals, separator, s[n..]).texts))
  {
    hide MatchTokens;
    LazyFindsShortest(literals, separator, s, 0, n);
    if j :| 0 <= j < n && MatchTokens(literals, separator, s[j..]).Match? {
      LazyFindsShortest(literals, separator, s, 0, j);
    } else {
      LazySkips(literals, separator, s, 0, n);
    }
  }

  /** How a rendered record with its tail can be read. */
  function RenderedMatch(separator: string, texts: seq<string>, tail: string): Match
    requires tail == "" || StartsAt(tail, separator, 0)
  {
    Match(texts, tail != "", if tail == "" then "" else tail[|separator|..])
  }

  lemma RenderedDerives(literals: seq<string>, separator: string, texts: seq<string>, tail: string)
    requires |literals| == |texts| + 1 && (tail == "" || StartsAt(tail, separator, 0))
    ensures Derives(literals, separator, RenderTexts(literals, texts) + tail, RenderedMatch(separator, texts, tail))
  {
    if tail != "" {
      assert tail == separator + tail[|separator|..];
      Associative(RenderTexts(literals, texts), separator, tail[|separator|..]);
    }
  }

  /** Occurrences of p before the end of a text, in what follows the text. */
  lemma OccursIn(text: string, p: string, rest: string, j: nat)
    requires j < |text|
    ensures StartsAt((text + (p + rest))[j..], p, 0) <==> StartsAt(text + p, p, j)
  {
    Associative(text, p, rest);
    StartsAtExtends(text + p, rest, p, j);
    StartsAtSuffix(text + (p + rest), j, p, 0);
  }

  lemma LastMatches(literal: string, separator: string, u: string)
    requires separator != "" && |u| > |literal|
    ensures MatchTokens([literal], separator, u).Match? <==> StartsAt(u, literal + separator, 0)
  {
    StartsAtConcat(u, literal, separator, 0);
    StartsAtSuffix(u, |literal|, separator, 0);
  }

  /** The last capture can end before its end exactly where the literal with the separator occurs. */
  lemma LastEndsEarly(literal: string, separator: string, text: string, tail: string, j: nat)
    requires separator != "" && j < |text| && (tail == "" || StartsAt(tail, separator, 0))
    ensures MatchTokens([literal], separator, (text + (literal + tail))[j..]).Match?
       <==> StartsAt(text + literal + (if tail != "" then separator else ""), literal + separator, j)
  {
    hide MatchTokens;
    var s, end := text + (literal + tail), literal + separator;
    LastMatches(literal, separator, s[j..]);
    StartsAtSuffix(s, j, end, 0);
    Associative(text, literal, tail);
    if tail == "" {
      assert text + literal + "" == s;
    } else {
      var rest := tail[|separator|..];
      assert tail == separator + rest;
      Associative(text + literal, separator, rest);
      StartsAtExtends(text + literal + separator, rest, end, j);
    }
  }

  /** What is left of a text that ends early, with the literal and the next text behind it. */
  lemma TakesUp(text: string, literal: string, next: string, last: string, j: nat)
    requires j < |text| && StartsAt(text + literal, literal, j)
    ensures (text + (literal + (next + last)))[j..] == literal + (((text + literal)[j + |literal|..] + next) + last)
  {
    var head := text + literal;
    Associative(text, literal, next + last);
    assert head[j..] == literal + head[j + |literal|..];
    assert (head + (next + last))[j..] == head[j..] + (next + last);
    Associative(literal, head[j + |literal|..], next + last);
    Associative(head[j + |literal|..], next, last);
  }

  /** An earlier capture can end before its end wherever its literal occurs: the next capture takes up
      what is left of it. */
  lemma InnerEndsEarly(literals: seq<string>, separator: string, texts: seq<string>, tail: string, j: nat)
    requires |literals| == |texts| + 1 && |texts| > 1 && separator != "" && j < |texts[0]|
    requires tail == "" || StartsAt(tail, separator, 0)
    ensures MatchTokens(literals[1..], separator,
            (texts[0] + (RenderTexts(literals[1..], texts[1..]) + tail))[j..]).Match?
       <==> StartsAt(texts[0] + literals[1], literals[1], j)
  {
    var inner := RenderTexts(literals[1..], texts[1..]) + tail;
    var u, literal := (texts[0] + inner)[j..], literals[1];
    var last := RenderTexts(literals[2..], texts[2..]) + tail;
    PeelInner(literals[1..], texts[1..], tail);
    OccursIn(texts[0], literal, texts[1] + last, j);
    if StartsAt(u, literal, 0) {
      hide MatchTokens, RenderTexts, MatchLazy;
      TakesUp(texts[0], literal, texts[1], last, j);
      var texts' := [(texts[0] + literal)[j + |literal|..] + texts[1]] + texts[2..];
      assert texts'[1..] == texts[2..];
      PeelInner(literals[1..], texts', tail);
      RenderedDerives(literals[1..], separator, texts', tail);
      MatchLeftmostFirst(literals[1..], separator, u, RenderedMatch(separator, texts', tail));
    }
  }

  lemma PeelInner(literals: seq<string>, texts: seq<string>, tail: string)
    requires |literals| == |texts| + 1 && texts != []
    ensures RenderTexts(literals, texts) + tail
            == literals[0] + (texts[0] + (RenderTexts(literals[1..], texts[1..]) + tail))
  {
    RenderPeel(literals, texts, tail);
    var s := RenderTexts(literals, texts) + tail;
    assert s == literals[0] + s[|literals[0]|..];
  }

  lemma FirstEndsEarly(literals: seq<string>, separator: string, texts: seq<string>, tail: string, j: nat)
    requires |literals| == |texts| + 1 && texts != [] && separator != "" && j < |texts[0]|
    requires tail == "" || StartsAt(tail, separator, 0)
    ensures MatchTokens(literals[1..], separator,
            (texts[0] + (RenderTexts(literals[1..], texts[1..]) + tail))[j..]).Match?
       <==> EndsEarly(literals, separator, texts, tail != "", 0, j)
  {
    if |texts| == 1 {
      assert literals[1..] == [literals[1]] && RenderTexts(literals[1..], texts[1..]) == literals[1];
      LastEndsEarly(literals[1], separator, texts[0], tail, j);
    } else {
      InnerEndsEarly(literals, separator, texts, tail, j);
    }
    hide MatchTokens, RenderTexts;
  }

  lemma FirstNeverEarly(literals: seq<string>, separator: string, texts: seq<string>, tail: string, rest: string,
      more: bool)
    requires |literals| == |texts| + 1 && texts != [] && separator != "" && (tail == "" || StartsAt(tail, separator, 0))
    requires more == (tail != "")
    requires rest == texts[0] + (RenderTexts(literals[1..], texts[1..]) + tail)
    ensures (forall j :: 0 <= j < |texts[0]| ==> MatchTokens(literals[1..], separator, rest[j..]).NoMatch?)
       <==> (forall j :: 0 <= j < |texts[0]| ==> !EndsEarly(literals, separator, texts, more, 0, j))
  {
    hide MatchTokens, RenderTexts, EndsEarly;
    if forall j :: 0 <= j < |texts[0]| ==> MatchTokens(literals[1..], separator, rest[j..]).NoMatch? {
      forall j | 0 <= j < |texts[0]| ensures !EndsEarly(literals, separator, texts, more, 0, j) {
        FirstEndsEarly(literals, separator, texts, tail, j);
      }
    } else {
      var j :| 0 <= j < |texts[0]| && MatchTokens(literals[1..], separator, rest[j..]).Match?;
      FirstEndsEarly(literals, separator, texts, tail, j);
    }
  }

  lemma MatchPeel(literals: seq<string>, separator: string, texts: seq<string>, tail: string)
    requires |literals| == |texts| + 1 && texts != [] && separator != ""
    ensures MatchTokens(literals, separator, RenderTexts(literals, texts) + tail)
         == MatchLazy(literals[1..], separator, texts[0] + (RenderTexts(literals[1..], texts[1..]) + tail), 0)
  {
    RenderPeel(literals, texts, tail);
    hide MatchLazy, RenderTexts;
  }

  /** A match takes the first text and then the others exactly if it takes that many characters and the
      remaining tokens take the others. */
  lemma FirstThenRest(first: string, texts: seq<string>, m: Match, inner: Match, separator: string, tail: string)
    requires texts != [] && (tail == "" || StartsAt(tail, separator, 0)) && first == texts[0]
    requires m.Match? && |m.texts| == |texts| && inner.Match?
    requires |m.texts[0]| == |first| ==> m == inner.(texts := [first] + inner.texts)
    ensures m == RenderedMatch(separator, texts, tail)
       <==> |m.texts[0]| == |first| && inner == RenderedMatch(separator, texts[1..], tail)
  {
    assert [texts[0]] + texts[1..] == texts;
    assert ([first] + inner.texts)[1..] == inner.texts;
  }

  /** A rendered record, at the end of the input or in front of a separator, is read back as it was
      exactly when none of its texts ends early. */
  lemma {:induction false} MatchRendered(literals: seq<string>, separator: string, texts: seq<string>, tail: string)
    requires |literals| == |texts| + 1 && separator != "" && (tail == "" || StartsAt(tail, separator, 0))
    ensures MatchTokens(literals, separator, RenderTexts(literals, texts) + tail)
            == RenderedMatch(separator, texts, tail)
       <==> Delimited(literals, separator, texts, tail != "")
    decreases |texts|
  {
    var s := RenderTexts(literals, texts) + tail;
    if texts == [] {
      assert s[|literals[0]|..] == tail;
      assert s[..|literals[0]|] == literals[0];
    } else {
      hide MatchTokens, MatchLazy, RenderTexts, EndsEarly, StartsAt, RenderedMatch, Delimited, Derives;
      var inner := RenderTexts(literals[1..], texts[1..]) + tail;
      var rest, n := texts[0] + inner, |texts[0]|;
      PrefixOfConcat(texts[0], inner);
      MatchPeel(literals, separator, texts, tail);
      RenderedDerives(literals[1..], separator, texts[1..], tail);
      MatchLeftmostFirst(literals[1..], separator, inner, RenderedMatch(separator, texts[1..], tail));
      MatchRendered(literals[1..], separator, texts[1..], tail);
      LazyExact(literals[1..], separator, rest, n);
      FirstNeverEarly(literals, separator, texts, tail, rest, tail != "");
      DelimitedCons(literals, separator, texts, tail != "");
      FirstThenRest(texts[0], texts, MatchLazy(literals[1..], separator, rest, 0),
        MatchTokens(literals[1..], separator, inner), separator, tail);
    }
  }

  // ---------------------------------------------------------------- rows

  datatype RowError = InvalidJson(name: string) | MissingField(column: string)

  datatype RawRow = RawRow(line: nat, values: Values, errors: seq<RowError>)

  function Defaults(fields: seq<Field>): Values {
    if fields == [] then map[]
    else Defaults(fields[..|fields| - 1])[fields[|fields| - 1].target := fields[|fields| - 1].defaultValue]
  }

  /** The values and decoding errors after the first `n` captures. */
  function Captured(captures: seq<Capture>, texts: seq<string>, json: JsonText, start: Values, n: nat): (Values,
      seq<RowError>)
    requires |texts| == |captures| && n <= |captures|
  {
    if n == 0 then (start, [])
    else
      var (values, errors) := Captured(captures, texts, json, start, n - 1);
      var capture := captures[n - 1];
      if !capture.jsonEncoded then (values[capture.target := texts[n - 1]], errors)
      else match json.decode(texts[n - 1])
        case None => (values, errors + [InvalidJson(capture.name)])
        case Some(value) => (values[capture.target := value], errors)
  }

  function MissingFields(fields: seq<Field>, values: Values): seq<RowError> {
    if fields == [] then []
    else
      var last := fields[|fields| - 1];
      MissingFields(fields[..|fields| - 1], values)
      + (if last.required && Blank(ValueOf(values, last.target)) then [MissingField(last.column)] else [])
  }

  function BuildRow(fields: seq<Field>, record: CompiledRecord, texts: seq<string>, json: JsonText, line: nat): RawRow
    requires |texts| == |record.captures|
  {
    var (values, errors) := Captured(record.captures, texts, json, Defaults(fields), |texts|);
    RawRow(line, values, errors + MissingFields(fields, values))
  }

  /** The three loops that turn one match into a mapped row. */
  method RawTemplateRow(fields: seq<Field>, record: CompiledRecord, texts: seq<string>, json: JsonText, line: nat)
      returns (row: RawRow)
    requires |texts| == |record.captures|
    ensures row == BuildRow(fields, record, texts, json, line)
  {
    var values: Values := map[];
    for i := 0 to |fields|
      invariant values == Defaults(fields[..i])
    {
      assert fields[..i + 1][..i] == fields[..i];
      values := values[fields[i].target := fields[i].defaultValue];
    }
    assert fields[..|fields|] == fields;
    ghost var start := values;
    var errors: seq<RowError> := [];
    for i := 0 to |record.captures|
      invariant Captured(record.captures, texts, json, start, i) == (values, errors)
    {
      var capture, value := record.captures[i], texts[i];
      if capture.jsonEncoded {
        var decoded := json.decode(value);
        if decoded == None {
          errors := errors + [InvalidJson(capture.name)];
          continue;
        }
        value := decoded.value;
      }
      values := values[capture.target := value];
    }
    ghost var decodeErrors := errors;
    for i := 0 to |fields|
      invariant errors == decodeErrors + MissingFields(fields[..i], values)
    {
      assert fields[..i + 1][..i] == fields[..i];
      if fields[i].required && Blank(ValueOf(values, fields[i].target)) {
        errors := errors + [MissingField(fields[i].column)];
      }
    }
    assert fields[..|fields|] == fields;
    row := RawRow(line, values, errors);
  }

  /** `start`, overridden under each captured target by what the record holds there. */
  function Overlay(start: Values, captures: seq<Capture>, values: Values, n: nat): Values
    requires n <= |captures|
  {
    if n == 0 then start
    else Overlay(start, captures, values, n - 1)[captures[n - 1].target := ValueOf(values, captures[n - 1].target)]
  }

  /** The values a rendered record gives back: its own under every captured target, the format
      defaults elsewhere. */
  function Restored(fields: seq<Field>, record: CompiledRecord, values: Values): Values {
    Overlay(Defaults(fields), record.captures, values, |record.captures|)
  }

  lemma {:induction false} OverlayHolds(start: Values, captures: seq<Capture>, values: Values, n: nat)
    requires n <= |captures|
    ensures forall i :: 0 <= i < n ==>
              captures[i].target in Overlay(start, captures, values, n)
              && Overlay(start, captures, values, n)[captures[i].target] == ValueOf(values, captures[i].target)
    ensures forall t :: t in start && (forall i :: 0 <= i < n ==> captures[i].target != t) ==>
              t in Overlay(start, captures, values, n) && Overlay(start, captures, values, n)[t] == start[t]
  {
    if n > 0 {
      OverlayHolds(start, captures, values, n - 1);
    }
  }

  lemma {:induction false} CapturedRestores(captures: seq<Capture>, values: Values, json: JsonText, start: Values,
      n: nat)
    requires n <= |captures| && Inverse(json)
    ensures Captured(captures, CaptureTexts(captures, values, json), json, start, n)
         == (Overlay(start, captures, values, n), [])
  {
    if n > 0 {
      CapturedRestores(captures, values, json, start, n - 1);
    }
  }

  // ---------------------------------------------------------------- the sequence of records

  function CountNewlines(s: string): nat {
    if s == "" then 0 else (if s[0] == '\n' then 1 else 0) + CountNewlines(s[1..])
  }

  datatype SequenceError = DoesNotMatch(line: nat)

  function ParseSequence(fields: seq<Field>, record: CompiledRecord, content: string, separator: string,
      json: JsonText, line: nat):
      Result<seq<RawRow>, SequenceError>
    requires WellFormed(record) && separator != ""
    decreases |content|
  {
    if content == "" then Ok([])
    else match MatchTokens(record.literals, separator, content)
      case NoMatch => Err(DoesNotMatch(line))
      case Match(texts, _, rest) =>
        var consumed := content[..|content| - |rest|];
        Following([BuildRow(fields, record, texts, json, line)],
                  ParseSequence(fields, record, rest, separator, json, line + CountNewlines(consumed)))
  }

  function Following(rows: seq<RawRow>, more: Result<seq<RawRow>, SequenceError>): Result<seq<RawRow>, SequenceError> {
    match more
    case Err(e) => Err(e)
    case Ok(rest) => Ok(rows + rest)
  }

  /** The record loop. The two defensive exits of the source, for a match that consumes nothing
      and for a match without separator that leaves content, are shown to be unreachable; every
      round consumes input, so the loop ends. */
  method ParseTemplateRecordSequence(fields: seq<Field>, record: CompiledRecord, content: string, separator: string,
      json: JsonText, startLine: nat)
      returns (r: Result<seq<RawRow>, SequenceError>)
    requires WellFormed(record) && separator != ""
    ensures r == ParseSequence(fields, record, content, separator, json, startLine)
  {
    var rows: seq<RawRow> := [];
    var remaining := content;
    var line: nat := startLine;
    assert forall more: seq<RawRow> :: rows + more == more;
    while remaining != ""
      invariant ParseSequence(fields, record, content, separator, json, startLine)
             == Following(rows, ParseSequence(fields, record, remaining, separator, json, line))
      decreases |remaining|
    {
      var m := MatchTokens(record.literals, separator, remaining);
      if m.NoMatch? {
        return Err(DoesNotMatch(line));
      }
      var row := RawTemplateRow(fields, record, m.texts, json, line);
      var consumed := remaining[..|remaining| - |m.rest|];
      assert consumed != "";
      assert !m.hadSeparator ==> m.rest == "";
      ghost var more := ParseSequence(fields, record, m.rest, separator, json, line + CountNewlines(consumed));
      if more.Ok? {
        assert rows + ([row] + more.value) == (rows + [row]) + more.value;
      }
      rows := rows + [row];
      remaining := m.rest;
      line := line + CountNewlines(consumed);
    }
    assert rows + [] == rows;
    r := Ok(rows);
  }

  function RenderAll(record: CompiledRecord, records: seq<Values>, json: JsonText): (rendered: seq<string>)
    requires WellFormed(record)
    ensures |rendered| == |records|
  {
    if records == [] then []
    else [RenderRecord(record, records[0], json)] + RenderAll(record, records[1..], json)
  }

  /** The rows that a list of rendered records gives back. */
  function RestoredRows(fields: seq<Field>, record: CompiledRecord, records: seq<Values>, separator: string,
      json: JsonText, line: nat): seq<RawRow>
    requires WellFormed(record)
  {
    if records == [] then []
    else
      [RestoredRow(fields, record, records[0], line)]
      + RestoredRows(fields, record, records[1..], separator, json,
                     line + CountNewlines(RenderRecord(record, records[0], json) + separator))
  }

  /** Every record delimits its captures, and the last one is not empty text. */
  ghost predicate Parseable(record: CompiledRecord, records: seq<Values>, separator: string, json: JsonText)
    requires WellFormed(record)
  {
    && (forall i :: 0 <= i < |records| ==>
          Delimited(record.literals, separator, CaptureTexts(record.captures, records[i], json), i < |records| - 1))
    && (records != [] ==> RenderRecord(record, records[|records| - 1], json) != "")
  }

  /** The row of one rendered record. */
  lemma RecordRoundTrip(fields: seq<Field>, record: CompiledRecord, values: Values, separator: string, tail: string,
      json: JsonText, line: nat)
    requires WellFormed(record) && separator != "" && Inverse(json)
    requires Delimited(record.literals, separator, CaptureTexts(record.captures, values, json), tail != "")
    requires tail == "" || StartsAt(tail, separator, 0)
    ensures var m := MatchTokens(record.literals, separator, RenderRecord(record, values, json) + tail);
            && m.Match?
            && m.rest == (if tail == "" then "" else tail[|separator|..])
            && BuildRow(fields, record, m.texts, json, line) == RestoredRow(fields, record, values, line)
  {
    var texts := CaptureTexts(record.captures, values, json);
    MatchRendered(record.literals, separator, texts, tail);
    CapturedRestores(record.captures, values, json, Defaults(fields), |texts|);
    var missing := MissingFields(fields, Restored(fields, record, values));
    assert [] + missing == missing;
  }

  lemma JoinCons(record: CompiledRecord, records: seq<Values>, separator: string, json: JsonText)
    requires WellFormed(record) && |records| > 1
    ensures Join(RenderAll(record, records, json), separator)
         == RenderRecord(record, records[0],
           json) + (separator + Join(RenderAll(record, records[1..], json), separator))
  {
    assert RenderAll(record, records, json)[1..] == RenderAll(record, records[1..], json);
  }

  lemma ParseableTail(record: CompiledRecord, records: seq<Values>, separator: string, json: JsonText)
    requires WellFormed(record) && |records| > 1 && Parseable(record, records, separator, json)
    ensures Parseable(record, records[1..], separator, json)
  {
    forall i | 0 <= i < |records| - 1
      ensures Delimited(record.literals, separator, CaptureTexts(record.captures, records[1..][i], json),
              i < |records[1..]| - 1)
    {
      assert records[1..][i] == records[i + 1];
    }
  }

  /** One round of the record loop. */
  lemma ParseRound(fields: seq<Field>, record: CompiledRecord, consumed: string, rest: string, texts: seq<string>,
      separator: string, json: JsonText, line: nat)
    requires WellFormed(record) && separator != "" && consumed != "" && |texts| == |record.captures|
    requires var m := MatchTokens(record.literals, separator, consumed + rest);
             m.Match? && m.texts == texts && m.rest == rest
    ensures ParseSequence(fields, record, consumed + rest, separator, json, line)
         == Following([BuildRow(fields, record, texts, json, line)],
                      ParseSequence(fields, record, rest, separator, json, line + CountNewlines(consumed)))
  {
    var content := consumed + rest;
    assert content[..|content| - |rest|] == consumed;
  }

  function RestoredRow(fields: seq<Field>, record: CompiledRecord, values: Values, line: nat): RawRow {
    var restored := Restored(fields, record, values);
    RawRow(line, restored, MissingFields(fields, restored))
  }

  lemma LastRecordParses(fields: seq<Field>, record: CompiledRecord, values: Values, separator: string,
      json: JsonText, line: nat)
    requires WellFormed(record) && separator != "" && Inverse(json)
    requires Delimited(record.literals, separator, CaptureTexts(record.captures, values, json), false)
    requires RenderRecord(record, values, json) != ""
    ensures ParseSequence(fields, record, RenderRecord(record, values, json), separator, json, line)
         == Ok([RestoredRow(fields, record, values, line)])
  {
    var head := RenderRecord(record, values, json);
    RecordRoundTrip(fields, record, values, separator, "", json, line);
    assert head + "" == head;
    ParseRound(fields, record, head, "", MatchTokens(record.literals, separator, head).texts, separator, json, line);
    var row := RestoredRow(fields, record, values, line);
    assert [row] + [] == [row];
  }

  lemma NextRecordParses(fields: seq<Field>, record: CompiledRecord, values: Values, rest: string, separator: string,
      json: JsonText, line: nat)
    requires WellFormed(record) && separator != "" && Inverse(json)
    requires Delimited(record.literals, separator, CaptureTexts(record.captures, values, json), true)
    ensures ParseSequence(fields, record, RenderRecord(record, values, json) + (separator + rest), separator, json,
            line)
         == Following([RestoredRow(fields, record, values, line)],
                      ParseSequence(fields, record, rest, separator, json,
                                    line + CountNewlines(RenderRecord(record, values, json) + separator)))
  {
    hide CountNewlines, RenderRecord, BuildRow, RestoredRow, MatchTokens, ParseSequence;
    var head := RenderRecord(record, values, json);
    PrefixOfConcat(separator, rest);
    RecordRoundTrip(fields, record, values, separator, separator + rest, json, line);
    Associative(head, separator, rest);
    ParseRound(fields, record, head + separator, rest,
               MatchTokens(record.literals, separator, head + (separator + rest)).texts, separator, json, line);
  }

  lemma {:induction false} SequenceRoundTrip(fields: seq<Field>, record: CompiledRecord, records: seq<Values>,
      separator: string, json: JsonText, line: nat)
    requires WellFormed(record) && separator != "" && Inverse(json)
    requires Parseable(record, records, separator, json)
    ensures ParseSequence(fields, record, Join(RenderAll(record, records, json), separator), separator, json, line)
         == Ok(RestoredRows(fields, record, records, separator, json, line))
    decreases |records|
  {
    hide CountNewlines, RenderRecord, RestoredRow;
    if |records| == 1 {
      SingleRoundTrip(fields, record, records, separator, json, line);
    } else if |records| > 1 {
      ParseableTail(record, records, separator, json);
      var next := line + CountNewlines(RenderRecord(record, records[0], json) + separator);
      SequenceRoundTrip(fields, record, records[1..], separator, json, next);
      ConsRoundTrip(fields, record, records, separator, json, line, next);
    }
  }

  lemma SingleRoundTrip(fields: seq<Field>, record: CompiledRecord, records: seq<Values>, separator: string,
      json: JsonText, line: nat)
    requires WellFormed(record) && separator != "" && Inverse(json) && |records| == 1
    requires Parseable(record, records, separator, json)
    ensures ParseSequence(fields, record, Join(RenderAll(record, records, json), separator), separator, json, line)
         == Ok(RestoredRows(fields, record, records, separator, json, line))
  {
    hide CountNewlines, RenderRecord, RestoredRow, ParseSequence;
    var next := line + CountNewlines(RenderRecord(record, records[0], json) + separator);
    assert RestoredRows(fields, record, records[1..], separator, json, next) == [];
    assert RestoredRows(fields, record, records, separator, json, line)
      == [RestoredRow(fields, record, records[0], line)];
    assert RenderAll(record, records, json) == [RenderRecord(record, records[0], json)];
    LastRecordParses(fields, record, records[0], separator, json, line);
  }

  lemma ConsRoundTrip(fields: seq<Field>, record: CompiledRecord, records: seq<Values>, separator: string,
      json: JsonText, line: nat, next: nat)
    requires WellFormed(record) && separator != "" && Inverse(json) && |records| > 1
    requires Delimited(record.literals, separator, CaptureTexts(record.captures, records[0], json), true)
    requires next == line + CountNewlines(RenderRecord(record, records[0], json) + separator)
    requires ParseSequence(fields, record, Join(RenderAll(record, records[1..], json), separator), separator, json,
             next)
          == Ok(RestoredRows(fields, record, records[1..], separator, json, next))
    ensures ParseSequence(fields, record, Join(RenderAll(record, records, json), separator), separator, json, line)
         == Ok(RestoredRows(fields, record, records, separator, json, line))
  {
    hide CountNewlines, RenderRecord, RestoredRow, ParseSequence, Join, Delimited, WellFormed;
    JoinCons(record, records, separator, json);
    NextRecordParses(fields, record, records[0], Join(RenderAll(record, records[1..], json), separator), separator,
      json, line);
  }

  // ---------------------------------------------------------------- the whole file

  datatype CompiledTemplate = CompiledTemplate(repeated: bool, prefix: string, suffix: string, separator: string,
      record: CompiledRecord)

  /** "\r\n" and lone "\r" become "\n". */
  function NormalizeNewlines(s: string): string {
    if s == "" then ""
    else if s[0] != '\r' then [s[0]] + NormalizeNewlines(s[1..])
    else if |s| > 1 && s[1] == '\n' then "\n" + NormalizeNewlines(s[2..])
    else "\n" + NormalizeNewlines(s[1..])
  }

  lemma {:induction false} NormalizeKeeps(s: string)
    requires '\r' !in s
    ensures NormalizeNewlines(s) == s
  {
    if s != "" {
      assert s[0] in s && '\r' !in s[1..];
      NormalizeKeeps(s[1..]);
    }
  }

  datatype InputError = PrefixMismatch | SuffixMismatch | RecordMismatch(line: nat)

  function ParseTemplateInput(fields: seq<Field>, template: CompiledTemplate, data: string,
      json: JsonText): Result<seq<RawRow>, InputError>
    requires WellFormed(template.record) && template.separator != ""
  {
    var payload := NormalizeNewlines(TrimPrefix(data, BYTE_ORDER_MARK));
    if !template.repeated then
      Lift(ParseSequence(fields, template.record, payload, "\n", json, 1))
    else if |payload| < |template.prefix| + |template.suffix| || !StartsAt(payload, template.prefix, 0) then
      Err(PrefixMismatch)
    else
      var body := payload[|template.prefix|..];
      if |body| < |template.suffix| || !StartsAt(body, template.suffix, |body| - |template.suffix|) then
        Err(SuffixMismatch)
      else
        Lift(ParseSequence(fields, template.record, body[..|body| - |template.suffix|], template.separator, json,
                           1 + CountNewlines(template.prefix)))
  }

  function Lift(r: Result<seq<RawRow>, SequenceError>): Result<seq<RawRow>, InputError> {
    match r
    case Ok(rows) => Ok(rows)
    case Err(DoesNotMatch(line)) => Err(RecordMismatch(line))
  }

  function EffectiveSeparator(template: CompiledTemplate): string {
    if template.repeated then template.separator else "\n"
  }

  function RenderTemplateExport(template: CompiledTemplate, records: seq<Values>, json: JsonText): string
    requires WellFormed(template.record)
  {
    var joined := Join(RenderAll(template.record, records, json), EffectiveSeparator(template));
    if template.repeated then template.prefix + joined + template.suffix else joined
  }

  /** Export followed by import gives back every captured value of every record, provided the
      file survives newline normalization and byte-order-mark trimming. */
  lemma TemplateRoundTrip(fields: seq<Field>, template: CompiledTemplate, records: seq<Values>, json: JsonText)
    requires WellFormed(template.record) && template.separator != "" && Inverse(json)
    requires Parseable(template.record, records, EffectiveSeparator(template), json)
    requires var data := RenderTemplateExport(template, records, json);
             '\r' !in data && !StartsAt(data, BYTE_ORDER_MARK, 0)
    ensures ParseTemplateInput(fields, template, RenderTemplateExport(template, records, json), json)
         == Ok(RestoredRows(fields, template.record, records, EffectiveSeparator(template), json,
                            if template.repeated then 1 + CountNewlines(template.prefix) else 1))
  {
    hide CountNewlines, ParseSequence, RenderAll, RestoredRows, NormalizeNewlines, Join, Parseable, WellFormed;
    var data := RenderTemplateExport(template, records, json);
    NormalizeKeeps(data);
    var joined := Join(RenderAll(template.record, records, json), EffectiveSeparator(template));
    if template.repeated {
      assert data == template.prefix + (joined + template.suffix);
      var body := data[|template.prefix|..];
      assert body == joined + template.suffix;
      assert body[|joined|..] == template.suffix && body[..|joined|] == joined;
      SequenceRoundTrip(fields, template.record, records, template.separator, json, 1 + CountNewlines(template.prefix));
    } else {
      SequenceRoundTrip(fields, template.record, records, "\n", json, 1);
    }
  }

  /** Reading back row i of an export: each captured target holds the record's own value. */
  lemma {:induction false} RestoredRowHolds(fields: seq<Field>, record: CompiledRecord, records: seq<Values>,
      separator: string, json: JsonText, line: nat, i: nat)
    requires WellFormed(record) && i < |records|
    ensures var rows := RestoredRows(fields, record, records, separator, json, line);
            |rows| == |records| && rows[i].values == Restored(fields, record, records[i])
    ensures forall c :: c in record.captures ==>
              var values := Restored(fields, record, records[i]);
              c.target in values && values[c.target] == ValueOf(records[i], c.target)
    decreases |records|
  {
    hide CountNewlines, RenderRecord;
    OverlayHolds(Defaults(fields), record.captures, records[i], |record.captures|);
    var next := line + CountNewlines(RenderRecord(record, records[0], json) + separator);
    if |records| == 1 {
      assert RestoredRows(fields, record, records[1..], separator, json, next) == [];
    } else {
      RestoredRowHolds(fields, record, records[1..], separator, json, next, if i > 0 then i - 1 else 0);
    }
  }

  /** A text that contains the literal behind it is misread: "{{a}}-{{b}}" reads the pair ("x-y", "z")
      back as ("x", "y-z"). */
  lemma AmbiguousTemplateMisreads()
    ensures var record := CompiledRecord(["", "-", ""], [Capture("a", "a", false), Capture("b", "b", false)]);
            && WellFormed(record)
            && RenderTexts(record.literals, ["x-y", "z"]) == "x-y-z"
            && MatchTokens(record.literals, "\n", "x-y-z") == Match(["x", "y-z"], false, "")
  {
    var literals := ["", "-", ""];
    assert literals[1..] == ["-", ""] && ["-", ""][1..] == [""];
    assert ["x-y", "z"][1..] == ["z"] && ["x", "y-z"][1..] == ["y-z"];
    assert RenderTexts(literals, ["x", "y-z"]) + "" == "x-y-z";
    var texts := ["x", "y-z"];
    forall i, j | 0 <= i < |texts| && 0 <= j < |texts[i]| ensures !EndsEarly(literals, "\n", texts, false, i, j) {
      if i == 0 {
        assert (texts[0] + "-")[0..1] == "x";
      } else {
        var last := texts[1] + "" + "";
        assert last[0..1] == "y" && last[1..2] == "-" && last[2..3] == "z";
        assert texts[1] + literals[2] + "" == last && literals[2] + "\n" == "\n";
      }
    }
    MatchRendered(literals, "\n", texts, "");
  }
}
