/** Which drafts are let through, what becomes of them, and the one retry. */
module Drafts {
  import opened Wrappers
  import opened Ordering
  import opened Text
  import opened Format
  import opened Values
  import opened Narrative

  const MAX_SECTION_CHARS: nat := 1200
  const MAX_TOTAL_CHARS: nat := 3000

  datatype Check = Empty | Length | Digit | NumberWord | UnknownToken | Malformed

  datatype ValidationError = ValidationError(check: Check, fragment: string, section: string)

  // ---- one section

  predicate Blank(s: string) {
    forall i :: 0 <= i < |s| ==> IsSpace(s[i])
  }

  predicate IsUnit(c: char) { c == '%' || c == '$' }

  function FirstDigit(s: string): Option<nat> { FirstWhere(s, IsDigit) }

  function FirstUnit(s: string): Option<nat> { FirstWhere(s, IsUnit) }

  /** Where the first word of a list begins, for any list. */
  type WordFinder = string -> Option<nat>

  const PAD: nat := 20

  /** A short window of text either side of an offence. */
  function Around(s: string, i: nat): string {
    var end := if i + PAD > |s| then |s| else i + PAD;
    var start := if i < PAD then 0 else i - PAD;
    if start > end then "" else s[start..end]
  }

  const MAX_FRAGMENT: nat := 40

  function Truncated(s: string): string {
    if |s| <= MAX_FRAGMENT then s else s[..MAX_FRAGMENT] + "..."
  }

  function CountOf(s: string, c: char): nat {
    if s == [] then 0 else CountOf(s[..|s| - 1], c) + if s[|s| - 1] == c then 1 else 0
  }

  function FirstUnknown(tokens: seq<string>, vocab: Vocabulary): Option<string> {
    if tokens == [] then None else if tokens[0] !in vocab then Some(tokens[0]) else FirstUnknown(tokens[1..], vocab)
  }

  function Rejection(check: Check, fragment: string): Option<ValidationError> {
    Some(ValidationError(check, fragment, ""))
  }

  /** The checks in their fixed order, each quoting what it found. */
  function Verdict(draft: string, vocab: Vocabulary, banned: WordFinder): Option<ValidationError> {
    var pieces := PatternPieces(draft);
    if Blank(draft) then Rejection(Empty, draft)
    else if |draft| > MAX_SECTION_CHARS then Rejection(Length, Truncated(draft))
    else if FirstDigit(draft).Some? then Rejection(Digit, Around(draft, FirstDigit(draft).value))
    else if FirstUnit(draft).Some? then Rejection(Digit, Around(draft, FirstUnit(draft).value))
    else if banned(draft).Some? then Rejection(NumberWord, Around(draft, banned(draft).value))
    else if CountOf(draft, '{') != CountOf(draft, '}') then Rejection(Malformed, Truncated(draft))
    else match FirstUnknown(TokensOf(pieces), vocab)
      case Some(token) => Rejection(UnknownToken, token)
      case None =>
        if '{' in Leftover(pieces) || '}' in Leftover(pieces) then Rejection(Malformed, Truncated(draft)) else None
  }

  lemma {:induction false} UnknownStays(tokens: seq<string>, vocab: Vocabulary, k: nat)
    requires k < |tokens| && tokens[k] !in vocab && forall i :: 0 <= i < k ==> tokens[i] in vocab
    ensures FirstUnknown(tokens, vocab) == Some(tokens[k])
  {
    if k > 0 {
      UnknownStays(tokens[1..], vocab, k - 1);
    }
  }

  lemma {:induction false} AllKnown(tokens: seq<string>, vocab: Vocabulary)
    ensures FirstUnknown(tokens, vocab).None? <==> forall t :: t in tokens ==> t in vocab
  {
    if tokens != [] {
      AllKnown(tokens[1..], vocab);
      assert tokens == [tokens[0]] + tokens[1..];
    }
  }

  method Validate(draft: string, vocab: Vocabulary, banned: WordFinder) returns (e: Option<ValidationError>)
    ensures e == Verdict(draft, vocab, banned)
  {
    hide PatternPieces, TokensOf, Leftover, CountOf, FirstUnknown, Blank, FirstDigit, FirstUnit, Around, Truncated;
    if Blank(draft) {
      return Rejection(Empty, draft);
    }
    if |draft| > MAX_SECTION_CHARS {
      return Rejection(Length, Truncated(draft));
    }
    var at := FirstDigit(draft);
    if at.Some? {
      return Rejection(Digit, Around(draft, at.value));
    }
    at := FirstUnit(draft);
    if at.Some? {
      return Rejection(Digit, Around(draft, at.value));
    }
    at := banned(draft);
    if at.Some? {
      return Rejection(NumberWord, Around(draft, at.value));
    }
    if CountOf(draft, '{') != CountOf(draft, '}') {
      return Rejection(Malformed, Truncated(draft));
    }
    var tokens := TokensOf(PatternPieces(draft));
    for k := 0 to |tokens|
      invariant forall i :: 0 <= i < k ==> tokens[i] in vocab
    {
      if tokens[k] !in vocab {
        UnknownStays(tokens, vocab, k);
        return Rejection(UnknownToken, tokens[k]);
      }
    }
    AllKnown(tokens, vocab);
    var leftover := Leftover(PatternPieces(draft));
    if '{' in leftover || '}' in leftover {
      return Rejection(Malformed, Truncated(draft));
    }
    return None;
  }

  lemma AroundQuotes(s: string, i: nat)
    requires i < |s|
    ensures |Around(s, i)| <= 2 * PAD && s[i] in Around(s, i)
  {
    var start := if i < PAD then 0 else i - PAD;
    assert Around(s, i)[i - start] == s[i];
  }

  lemma FirstUnknownIsOne(tokens: seq<string>, vocab: Vocabulary)
    ensures var u := FirstUnknown(tokens, vocab); u.Some? ==> u.value in tokens && u.value !in vocab
  {}

  /** A rejection shows the model where it slipped: a figure or unit it wrote, in forty characters around it; a token it
      used that was never offered; or the beginning of its own draft. */
  lemma RejectionQuotes(draft: string, vocab: Vocabulary, banned: WordFinder)
    requires Verdict(draft, vocab, banned).Some?
    ensures var e := Verdict(draft, vocab, banned).value;
            match e.check
            case Empty => e.fragment == draft
            case Digit => |e.fragment| <= 40 && exists c :: c in e.fragment && c in draft && (IsDigit(c) || IsUnit(c))
            case UnknownToken => e.fragment in TokensOf(PatternPieces(draft)) && e.fragment !in vocab
            case NumberWord => banned(draft).Some? && e.fragment == Around(draft, banned(draft).value)
            case Length => |draft| > MAX_SECTION_CHARS && e.fragment == draft[..40] + "..."
            case Malformed => if |draft| <= 40 then e.fragment == draft else e.fragment == draft[..40] + "..."
  {
    hide PatternPieces, TokensOf, Leftover, CountOf, FirstUnknown, Around, Blank;
    FirstUnknownIsOne(TokensOf(PatternPieces(draft)), vocab);
    if FirstDigit(draft).Some? {
      AroundQuotes(draft, FirstDigit(draft).value);
      assert IsDigit(draft[FirstDigit(draft).value]);
    }
    if FirstUnit(draft).Some? {
      AroundQuotes(draft, FirstUnit(draft).value);
      assert IsUnit(draft[FirstUnit(draft).value]);
    }
  }

  // ---- what acceptance means

  lemma {:induction false} CountJoin(a: string, b: string, c: char)
    ensures CountOf(a + b, c) == CountOf(a, c) + CountOf(b, c)
  {
    if b == [] {
      assert a + b == a;
    } else {
      CountJoin(a, b[..|b| - 1], c);
      assert (a + b)[..|a + b| - 1] == a + b[..|b| - 1];
    }
  }

  lemma {:induction false} CountNone(s: string, c: char)
    requires c !in s
    ensures CountOf(s, c) == 0
  {
    if s != [] {
      CountNone(s[..|s| - 1], c);
    }
  }

  lemma PlainCounts(s: string)
    requires Plain(s)
    ensures CountOf(s, '{') == 0 && CountOf(s, '}') == 0
  {
    CountNone(s, '{');
    CountNone(s, '}');
  }

  lemma CountBraces()
    ensures CountOf("{", '{') == 1 && CountOf("{", '}') == 0 && CountOf("}", '{') == 0 && CountOf("}", '}') == 1
  {
    assert "{"[..0] == [] && "}"[..0] == [];
  }

  lemma CountToken(text: string, name: string, tail: string, c: char)
    requires IsBrace(c) && Plain(text) && Plain(name)
    ensures CountOf(text + "{" + name + "}" + tail, c) == 1 + CountOf(tail, c)
  {
    PlainCounts(text);
    PlainCounts(name);
    CountBraces();
    hide CountOf;
    CountJoin(text + "{" + name + "}", tail, c);
    CountJoin(text + "{" + name, "}", c);
    CountJoin(text + "{", name, c);
    CountJoin(text, "{", c);
  }

  /** Comparing brace counts rejects nothing that the last check would let through; it only says so sooner. */
  lemma {:induction false} CountsMatch(s: string)
    requires PlainLiterals(PatternPieces(s))
    ensures CountOf(s, '{') == CountOf(s, '}')
    decreases |s|
  {
    hide FirstMatch, CountOf, PlainLiterals, PlainPieces;
    match FirstMatch(s)
    case None =>
      OneLiteral(s);
      PlainCounts(s);
    case Some(m) =>
      var text, name, tail := s[..m.open], s[m.open + 1..m.close], s[m.close + 1..];
      PiecesTail(Literal(text), Token(name), PatternPieces(tail));
      OneLiteral(text);
      OneToken(s, m);
      PlainTokenMeans(name);
      CountsMatch(tail);
      assert s == text + "{" + name + "}" + tail;
      CountToken(text, name, tail, '{');
      CountToken(text, name, tail, '}');
  }

  lemma {:induction false} TokensOffered(pieces: seq<Piece>, name: string)
    ensures name in TokensOf(pieces) <==> Token(name) in pieces
  {
    if pieces != [] {
      TokensOffered(pieces[1..], name);
      assert pieces == [pieces[0]] + pieces[1..];
    }
  }

  lemma NoFiguresIff(s: string)
    ensures FirstDigit(s).None? && FirstUnit(s).None? <==> NoFigures(s)
  {}

  /** A draft that fails several checks is told of the first: nothing written, then too long, then a figure, then a banned
      word, and only then its tokens, unknown ones only where its braces pair up in number. */
  lemma FirstFailureIsTold(draft: string, vocab: Vocabulary, banned: WordFinder)
    ensures var verdict := Verdict(draft, vocab, banned);
            var written, short := !Blank(draft), |draft| <= MAX_SECTION_CHARS;
            var plain := written && short && NoFigures(draft);
            && ((verdict.Some? && verdict.value.check == Empty) <==> !written)
            && ((verdict.Some? && verdict.value.check == Length) <==> written && !short)
            && ((verdict.Some? && verdict.value.check == Digit) <==> written && short && !NoFigures(draft))
            && ((verdict.Some? && verdict.value.check == NumberWord) <==> plain && banned(draft).Some?)
            && (verdict.Some? && verdict.value.check == UnknownToken ==>
                  plain && banned(draft).None? && CountOf(draft, '{') == CountOf(draft, '}'))
            && (plain && banned(draft).None? && CountOf(draft, '{') != CountOf(draft, '}') ==>
                  verdict.Some? && verdict.value.check == Malformed)
  {
    hide PatternPieces, TokensOf, Leftover, CountOf, FirstUnknown, Blank, FirstDigit, FirstUnit, NoFigures;
    hide Around, Truncated;
    NoFiguresIff(draft);
  }

  /** Acceptance, in full: something written, within the cap, no figure and no banned word in it, every token offered,
      and no brace outside a token. */
  lemma AcceptedIff(draft: string, vocab: Vocabulary, banned: WordFinder)
    ensures var pieces := PatternPieces(draft);
            Verdict(draft, vocab, banned).None? <==>
              && !Blank(draft) && |draft| <= MAX_SECTION_CHARS && NoFigures(draft) && banned(draft).None?
              && (forall name :: Token(name) in pieces ==> name in vocab)
              && PlainLiterals(pieces)
  {
    hide PatternPieces, TokensOf, Leftover, CountOf, FirstUnknown, Blank, FirstDigit, FirstUnit, NoFigures;
    hide PlainLiterals, Around, Truncated;
    var pieces := PatternPieces(draft);
    NoFiguresIff(draft);
    LeftoverIsLiterals(pieces);
    AllKnown(TokensOf(pieces), vocab);
    forall name ensures name in TokensOf(pieces) <==> Token(name) in pieces {
      TokensOffered(pieces, name);
    }
    if PlainLiterals(pieces) {
      CountsMatch(draft);
    }
  }

  ghost predicate AllRenderable(vocab: Vocabulary) {
    forall name :: name in vocab ==> Renderable(vocab[name])
  }

  lemma OfferedIsRenderable(pieces: seq<Piece>, vocab: Vocabulary)
    requires AllRenderable(vocab) && PlainLiterals(pieces)
    requires forall name :: Token(name) in pieces ==> name in vocab
    ensures Offered(pieces, vocab) && PlainValues(pieces, vocab)
  {
    hide FormatOf, Renderable;
    forall p | p in pieces
      ensures p.Token? ==> p.name in vocab && FormatOf(vocab[p.name]).Ok? && Plain(FormatOf(vocab[p.name]).value)
    {
      if p.Token? {
        RenderableIsPlain(vocab[p.name]);
      }
    }
  }

  /** No figure is the model's. Whatever draft is accepted, it renders without error to its own prose with every token
      replaced by its formatted value; no brace reaches the page; and every digit, percent or dollar sign on it lies
      inside a value that came out of the report. */
  lemma AcceptedRenders(draft: string, vocab: Vocabulary, banned: WordFinder)
    requires Verdict(draft, vocab, banned).None? && AllRenderable(vocab)
    ensures var pieces := PatternPieces(draft);
            && Offered(pieces, vocab)
            && Rendered(draft, vocab) == Ok(Substituted(pieces, vocab))
            && Plain(Substituted(pieces, vocab))
            && forall k :: 0 <= k < |Substituted(pieces, vocab)| && IsFigureChar(Substituted(pieces, vocab)[k]) ==>
                 FromToken(pieces, vocab, k)
  {
    hide Verdict, PatternPieces, Substituted, FromToken, Rendered, ScanPieces, NoFigures, PlainLiterals, PlainPieces;
    var pieces := PatternPieces(draft);
    AcceptedIff(draft, vocab, banned);
    OfferedIsRenderable(pieces, vocab);
    PatternImpliesScan(draft);
    RenderedIsSubstituted(draft, vocab);
    SubstitutedIsPlain(pieces, vocab);
    PatternKeepsText(draft);
    forall k | 0 <= k < |Substituted(pieces, vocab)| && IsFigureChar(Substituted(pieces, vocab)[k])
      ensures FromToken(pieces, vocab, k)
    {
      FiguresComeFromTokens(pieces, vocab, k);
    }
  }

  // ---- all sections

  type Sections = map<string, string>

  function FirstBad(names: seq<string>, sections: Sections, vocab: Vocabulary, banned: WordFinder): Option<ValidationError>
    requires forall n :: n in names ==> n in sections
  {
    if names == [] then None
    else
      var earlier := FirstBad(names[..|names| - 1], sections, vocab, banned);
      var last := names[|names| - 1];
      if earlier.Some? then earlier
      else match Verdict(sections[last], vocab, banned)
        case Some(e) => Some(e.(section := last))
        case None => None
  }

  function TotalChars(names: seq<string>, sections: Sections): nat
    requires forall n :: n in names ==> n in sections
  {
    if names == [] then 0 else TotalChars(names[..|names| - 1], sections) + |sections[names[|names| - 1]]|
  }

  function SectionsVerdict(sections: Sections, vocab: Vocabulary, banned: WordFinder): Option<ValidationError> {
    var names := SortedKeys(sections.Keys);
    var bad := FirstBad(names, sections, vocab, banned);
    if bad.Some? then bad
    else if TotalChars(names, sections) > MAX_TOTAL_CHARS then Rejection(Length, Digits(|sections|) + " sections")
    else None
  }

  lemma {:induction false} BadStays(names: seq<string>, k: nat, sections: Sections, vocab: Vocabulary, banned: WordFinder)
    requires forall n :: n in names ==> n in sections
    requires k <= |names| && FirstBad(names[..k], sections, vocab, banned).Some?
    ensures FirstBad(names, sections, vocab, banned) == FirstBad(names[..k], sections, vocab, banned)
    decreases |names|
  {
    hide Verdict;
    if k == |names| {
      assert names[..k] == names;
    } else {
      assert names[..|names| - 1][..k] == names[..k];
      BadStays(names[..|names| - 1], k, sections, vocab, banned);
    }
  }

  method CountChars(names: seq<string>, sections: Sections) returns (total: nat)
    requires forall n :: n in names ==> n in sections
    ensures total == TotalChars(names, sections)
  {
    total := 0;
    for k := 0 to |names|
      invariant total == TotalChars(names[..k], sections)
    {
      assert names[..k + 1][..k] == names[..k];
      total := total + |sections[names[k]]|;
    }
    assert names[..|names|] == names;
  }

  method ValidateSections(sections: Sections, vocab: Vocabulary, banned: WordFinder) returns (e: Option<ValidationError>)
    ensures e == SectionsVerdict(sections, vocab, banned)
  {
    hide SortedKeys, Verdict, TotalChars;
    var names := SortedKeys(sections.Keys);
    var total := CountChars(names, sections);
    for k := 0 to |names|
      invariant FirstBad(names[..k], sections, vocab, banned) == None
    {
      assert names[..k + 1][..k] == names[..k];
      assert names[k] in names;
      var bad := Validate(sections[names[k]], vocab, banned);
      if bad.Some? {
        BadStays(names, k + 1, sections, vocab, banned);
        return Some(bad.value.(section := names[k]));
      }
    }
    assert names[..|names|] == names;
    if total > MAX_TOTAL_CHARS {
      return Rejection(Length, Digits(|sections|) + " sections");
    }
    return None;
  }

  lemma {:induction false} NoneBad(names: seq<string>, sections: Sections, vocab: Vocabulary, banned: WordFinder)
    requires forall n :: n in names ==> n in sections
    ensures FirstBad(names, sections, vocab, banned).None? <==> forall n :: n in names ==> Verdict(sections[n], vocab, banned).None?
  {
    hide Verdict;
    if names != [] {
      NoneBad(names[..|names| - 1], sections, vocab, banned);
      assert names == names[..|names| - 1] + [names[|names| - 1]];
    }
  }

  lemma AcceptedSections(sections: Sections, vocab: Vocabulary, banned: WordFinder)
    requires SectionsVerdict(sections, vocab, banned).None?
    ensures forall n :: n in sections ==> Verdict(sections[n], vocab, banned).None?
  {
    hide SortedKeys, Verdict;
    NoneBad(SortedKeys(sections.Keys), sections, vocab, banned);
  }

  // ---- rendering and the retry

  datatype SectionError = SectionError(section: string, e: RenderError)

  method RenderSections(sections: Sections, vocab: Vocabulary) returns (r: Result<Sections, SectionError>)
    ensures r.Ok? ==> r.value.Keys == sections.Keys && forall n :: n in sections ==> Rendered(sections[n], vocab) == Ok(r.value[n])
    ensures r.Err? ==> r.error.section in sections && Rendered(sections[r.error.section], vocab) == Err(r.error.e)
  {
    hide Rendered;
    var out: Sections := map[];
    var left := sections.Keys;
    while left != {}
      invariant left <= sections.Keys && out.Keys == sections.Keys - left
      invariant forall n :: n in out ==> Rendered(sections[n], vocab) == Ok(out[n])
    {
      var name :| name in left;
      var rendered := Render(sections[name], vocab);
      if rendered.Err? {
        return Err(SectionError(name, rendered.error));
      }
      out := out[name := rendered.value];
      left := left - {name};
    }
    return Ok(out);
  }

  datatype Prompt = Prompt(system: string, user: string)

  datatype GeneratorError = GeneratorError(reason: string)

  /** generate stands for the model behind its client, which may answer each call as it likes, parse for the reading of
      its JSON, correction for the words a rejection is quoted back in: any functions at all. */
  datatype Model = Model(generate: (nat, Prompt) -> Result<string, GeneratorError>,
                         parse: string -> Result<Sections, ValidationError>,
                         correction: ValidationError -> string, banned: WordFinder)

  datatype GenerateError =
    | NothingToPhrase
    | GeneratorFailed(e: GeneratorError)
    | RenderMismatch(mismatch: SectionError)
    | Unusable(last: ValidationError)

  function Corrected(p: Prompt, model: Model, reason: ValidationError): Prompt {
    p.(user := p.user + model.correction(reason))
  }

  /** What one answer of the model amounts to. */
  function Judged(model: Model, raw: string, vocab: Vocabulary): Result<Sections, ValidationError> {
    match model.parse(raw)
    case Err(e) => Err(e)
    case Ok(sections) =>
      match SectionsVerdict(sections, vocab, model.banned) case Some(e) => Err(e) case None => Ok(sections)
  }

  /** Every section's prose with its tokens replaced. */
  ghost predicate IsRenderingOf(out: Sections, sections: Sections, vocab: Vocabulary) {
    && out.Keys == sections.Keys
    && forall n :: n in sections ==>
         && Offered(PatternPieces(sections[n]), vocab)
         && out[n] == Substituted(PatternPieces(sections[n]), vocab) && Plain(out[n])
  }

  /** A narrative is the rendering of the accepted answer to one call. */
  ghost predicate ComesFrom(out: Sections, model: Model, call: nat, asked: Prompt, vocab: Vocabulary) {
    exists raw, sections :: ComesFromAnswer(out, model, call, asked, vocab, raw, sections)
  }

  ghost predicate ComesFromAnswer(out: Sections, model: Model, call: nat, asked: Prompt, vocab: Vocabulary, raw: string,
                                  sections: Sections)
  {
    model.generate(call, asked) == Ok(raw) && Judged(model, raw, vocab) == Ok(sections) && IsRenderingOf(out, sections, vocab)
  }

  ghost predicate Rejected(model: Model, call: nat, asked: Prompt, vocab: Vocabulary, e: ValidationError) {
    var answer := model.generate(call, asked);
    answer.Ok? && Judged(model, answer.value, vocab) == Err(e)
  }

  lemma AcceptedSectionsRender(sections: Sections, vocab: Vocabulary, banned: WordFinder, rendered: Result<Sections, SectionError>)
    requires SectionsVerdict(sections, vocab, banned).None? && AllRenderable(vocab)
    requires rendered.Ok? ==> rendered.value.Keys == sections.Keys
                              && forall n :: n in sections ==> Rendered(sections[n], vocab) == Ok(rendered.value[n])
    requires rendered.Err? ==> rendered.error.section in sections
                               && Rendered(sections[rendered.error.section], vocab) == Err(rendered.error.e)
    ensures rendered.Ok? && IsRenderingOf(rendered.value, sections, vocab)
  {
    hide SectionsVerdict, Verdict, Rendered, Substituted, PatternPieces, Offered, FromToken;
    AcceptedSections(sections, vocab, banned);
    forall n | n in sections
      ensures Offered(PatternPieces(sections[n]), vocab)
              && Rendered(sections[n], vocab) == Ok(Substituted(PatternPieces(sections[n]), vocab))
              && Plain(Substituted(PatternPieces(sections[n]), vocab))
    {
      AcceptedRenders(sections[n], vocab, banned);
    }
  }

  /** The second call quotes the first one's rejection. */
  ghost predicate RejectedFirst(model: Model, p: Prompt, vocab: Vocabulary, second: Prompt) {
    exists e ::
      Rejected(model, 0, p, vocab, e) && second.system == p.system && second.user == p.user + model.correction(e)
  }

  /** At most two answers are bought, none for an empty vocabulary. What comes back is the rendering of an accepted
      answer, the generator's own failure, or word that two answers in a row were rejected; the fourth outcome, an
      accepted answer that will not render, cannot happen with a vocabulary whose every value renders. */
  method Generate(model: Model, p: Prompt, vocab: Vocabulary)
    returns (r: Result<Sections, GenerateError>, calls: nat, asked: Prompt)
    ensures calls <= 2 && (calls == 0 <==> vocab == map[]) && (vocab == map[] <==> r == Err(NothingToPhrase))
    ensures calls == 1 ==> asked == p
    ensures calls == 2 ==> RejectedFirst(model, p, vocab, asked)
    ensures AllRenderable(vocab) && r.Ok? ==> calls >= 1 && ComesFrom(r.value, model, calls - 1, asked, vocab)
    ensures AllRenderable(vocab) ==> !(r.Err? && r.error.RenderMismatch?)
    ensures r.Err? && r.error.Unusable? ==> calls == 2 && Rejected(model, 1, asked, vocab, r.error.last)
    ensures r.Err? && r.error.GeneratorFailed? ==> calls >= 1 && model.generate(calls - 1, asked) == Err(r.error.e)
  {
    hide SectionsVerdict, IsRenderingOf, AllRenderable;
    calls, asked := 0, p;
    if |vocab| == 0 {
      return Err(NothingToPhrase), 0, p;
    }
    var attempt := p;
    var last: Option<ValidationError> := None;
    for i := 0 to 2
      invariant calls == i && vocab != map[]
      invariant i == 0 ==> attempt == p
      invariant i == 1 ==> RejectedFirst(model, p, vocab, attempt)
      invariant i == 2 ==> last.Some? && Rejected(model, 1, asked, vocab, last.value) && RejectedFirst(model, p, vocab, asked)
    {
      asked := attempt;
      calls := calls + 1;
      var raw := model.generate(i, attempt);
      if raw.Err? {
        return Err(GeneratorFailed(raw.error)), calls, asked;
      }
      var sections := model.parse(raw.value);
      if sections.Err? {
        last := Some(sections.error);
      } else {
        last := ValidateSections(sections.value, vocab, model.banned);
      }
      if last.None? {
        var rendered := RenderSections(sections.value, vocab);
        if AllRenderable(vocab) {
          AcceptedSectionsRender(sections.value, vocab, model.banned, rendered);
          assert ComesFromAnswer(rendered.value, model, i, asked, vocab, raw.value, sections.value);
        }
        if rendered.Ok? {
          return Ok(rendered.value), calls, asked;
        }
        return Err(RenderMismatch(rendered.error)), calls, asked;
      }
      assert Rejected(model, i, asked, vocab, last.value);
      attempt := Corrected(p, model, last.value);
    }
    return Err(Unusable(last.value)), calls, asked;
  }
}
