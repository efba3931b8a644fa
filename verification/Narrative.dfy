/** Two tokenizers over one draft: the pattern that validates it and the index scan that renders it. */
module Narrative {
  import opened Wrappers
  import opened Text
  import opened Values

  /** A draft is prose between placeholders. */
  datatype Piece = Literal(text: string) | Token(name: string)

  predicate IsBrace(c: char) { c == '{' || c == '}' }

  // ---- the validator's tokenizer: leftmost matches of an opening brace, no braces, a closing brace

  function FirstBrace(s: string): (r: Option<nat>)
    ensures r.Some? ==> r.value < |s| && IsBrace(s[r.value]) && forall k :: 0 <= k < r.value ==> !IsBrace(s[k])
    ensures r.None? ==> Plain(s)
  {
    if s == [] then None
    else
      assert s == [s[0]] + s[1..];
      if IsBrace(s[0]) then Some(0)
      else
        var rest := FirstBrace(s[1..]);
        if rest.None? then None else Some(rest.value + 1)
  }

  /** Where a match that starts here ends, if one starts here. */
  function MatchEnd(s: string): (r: Option<nat>)
    ensures r.Some? ==> 1 <= r.value < |s| && s[0] == '{' && s[r.value] == '}'
    ensures r.Some? ==> forall k :: 1 <= k < r.value ==> !IsBrace(s[k])
  {
    if s == [] || s[0] != '{' then None
    else
      var next := FirstBrace(s[1..]);
      if next.Some? && s[next.value + 1] == '}' then Some(next.value + 1) else None
  }

  datatype Span = Span(open: nat, close: nat)

  function FirstMatch(s: string): (r: Option<Span>)
    ensures r.Some? ==> r.value.open < r.value.close < |s| && s[r.value.open] == '{' && s[r.value.close] == '}'
    ensures r.Some? ==> forall k :: r.value.open < k < r.value.close ==> !IsBrace(s[k])
  {
    if s == [] then None
    else if MatchEnd(s).Some? then Some(Span(0, MatchEnd(s).value))
    else
      var later := FirstMatch(s[1..]);
      if later.None? then None else Some(Span(later.value.open + 1, later.value.close + 1))
  }

  /** The draft as the pattern reads it: every match a token, all else literal. */
  function PatternPieces(s: string): seq<Piece>
    decreases |s|
  {
    match FirstMatch(s)
    case None => [Literal(s)]
    case Some(m) => [Literal(s[..m.open]), Token(s[m.open + 1..m.close])] + PatternPieces(s[m.close + 1..])
  }

  function TokensOf(pieces: seq<Piece>): seq<string> {
    if pieces == [] then []
    else (if pieces[0].Token? then [pieces[0].name] else []) + TokensOf(pieces[1..])
  }

  /** What is left when every match is taken out. */
  function Leftover(pieces: seq<Piece>): string {
    if pieces == [] then []
    else (if pieces[0].Literal? then pieces[0].text else []) + Leftover(pieces[1..])
  }

  // ---- the renderer's tokenizer: the next opening brace, then the next closing one

  function Before(text: string, name: string, rest: Option<seq<Piece>>): Option<seq<Piece>> {
    match rest case None => None case Some(pieces) => Some([Literal(text), Token(name)] + pieces)
  }

  function ScanPieces(s: string): Option<seq<Piece>>
    decreases |s|
  {
    match IndexOf(s, '{')
    case None => Some([Literal(s)])
    case Some(open) =>
      match IndexOf(s[open..], '}')
      case None => None
      case Some(length) => Before(s[..open], s[open + 1..open + length], ScanPieces(s[open + length + 1..]))
  }

  function TextOf(p: Piece): string {
    match p case Literal(text) => text case Token(name) => name
  }

  ghost predicate PlainPieces(pieces: seq<Piece>) {
    forall p :: p in pieces ==> Plain(TextOf(p))
  }

  ghost predicate PlainLiterals(pieces: seq<Piece>) {
    forall p :: p in pieces && p.Literal? ==> Plain(p.text)
  }

  lemma {:induction false} LeftoverIsLiterals(pieces: seq<Piece>)
    ensures Plain(Leftover(pieces)) <==> PlainLiterals(pieces)
  {
    if pieces != [] {
      LeftoverIsLiterals(pieces[1..]);
      assert pieces == [pieces[0]] + pieces[1..];
    }
  }

  /** When the text before the first match is plain, the scan stops at the match and ends it where the pattern does. */
  lemma ScanFindsMatch(s: string)
    requires FirstMatch(s).Some? && Plain(s[..FirstMatch(s).value.open])
    ensures var m := FirstMatch(s).value;
            IndexOf(s, '{') == Some(m.open) && IndexOf(s[m.open..], '}') == Some(m.close - m.open)
  {
    hide FirstMatch, IndexOf;
    var m := FirstMatch(s).value;
    FirstIndex(s, '{', m.open);
    var t := s[m.open..];
    var inside := t[..m.close - m.open];
    forall k | 0 <= k < |inside| ensures inside[k] != '}' {
      assert inside[k] == s[m.open + k];
    }
    FirstIndex(t, '}', m.close - m.open);
  }

  lemma PiecesTail(first: Piece, second: Piece, rest: seq<Piece>)
    ensures PlainLiterals([first, second] + rest)
            == (PlainLiterals([first]) && PlainLiterals([second]) && PlainLiterals(rest))
    ensures PlainPieces([first, second] + rest) == (PlainPieces([first]) && PlainPieces([second]) && PlainPieces(rest))
  {
    hide Plain;
    assert forall p :: p in [first, second] + rest <==> p in [first] || p in [second] || p in rest;
  }

  /** Where the pattern leaves no brace behind, the index scan reads the same pieces. */
  lemma {:induction false} PatternImpliesScan(s: string)
    requires PlainLiterals(PatternPieces(s))
    ensures ScanPieces(s) == Some(PatternPieces(s)) && PlainPieces(PatternPieces(s))
    decreases |s|
  {
    hide FirstMatch, IndexOf, PlainPieces, PlainLiterals;
    match FirstMatch(s)
    case None => OneLiteral(s);
    case Some(m) =>
      var text, name, tail := s[..m.open], s[m.open + 1..m.close], s[m.close + 1..];
      PiecesTail(Literal(text), Token(name), PatternPieces(tail));
      OneLiteral(text);
      PatternImpliesScan(tail);
      ScanFindsMatch(s);
      OneToken(s, m);
  }

  lemma OneLiteral(text: string)
    ensures PlainLiterals([Literal(text)]) <==> Plain(text)
    ensures PlainPieces([Literal(text)]) <==> Plain(text)
  {
    assert [Literal(text)][0] == Literal(text);
  }

  lemma OneToken(s: string, m: Span)
    requires FirstMatch(s) == Some(m)
    ensures PlainLiterals([Token(s[m.open + 1..m.close])]) && PlainPieces([Token(s[m.open + 1..m.close])])
  {
    hide FirstMatch;
    var name := s[m.open + 1..m.close];
    forall k | 0 <= k < |name| ensures !IsBrace(name[k]) {
      assert name[k] == s[m.open + 1 + k];
    }
  }

  lemma {:induction false} NoMatchWithout(s: string)
    requires '{' !in s
    ensures FirstMatch(s).None?
  {
    if s != [] {
      assert s == [s[0]] + s[1..];
      NoMatchWithout(s[1..]);
    }
  }

  /** The first opening brace, with no brace before its closing one, is the first match. */
  lemma {:induction false} MatchIsFirstOpen(s: string, open: nat, close: nat)
    requires open < close < |s| && s[open] == '{' && s[close] == '}'
    requires forall k :: 0 <= k < close && k != open ==> !IsBrace(s[k])
    ensures FirstMatch(s) == Some(Span(open, close))
  {
    if open == 0 {
      var next := FirstBrace(s[1..]);
      assert s[1..][close - 1] == '}';
      assert next.Some?;
      assert s[1 + next.value] == s[1..][next.value];
    } else {
      assert !IsBrace(s[0]);
      assert MatchEnd(s).None?;
      MatchIsFirstOpen(s[1..], open - 1, close - 1);
    }
  }

  lemma PlainAround(s: string, open: nat, length: nat)
    requires IndexOf(s, '{') == Some(open) && IndexOf(s[open..], '}') == Some(length)
    requires Plain(s[..open]) && Plain(s[open + 1..open + length])
    ensures 0 < length && open + length < |s| && s[open + length] == '}'
    ensures forall k :: 0 <= k < open + length && k != open ==> !IsBrace(s[k])
  {
    hide IndexOf;
    assert s[open..][0] == '{' && s[open..][length] == s[open + length];
    var text, name := s[..open], s[open + 1..open + length];
    forall k | 0 <= k < open + length && k != open ensures !IsBrace(s[k]) {
      if k < open {
        assert s[k] == text[k];
      } else {
        assert s[k] == name[k - open - 1];
      }
    }
  }

  lemma ScanStep(s: string, open: nat, length: nat)
    requires IndexOf(s, '{') == Some(open) && IndexOf(s[open..], '}') == Some(length)
    ensures open + length < |s|
    ensures ScanPieces(s) == Before(s[..open], s[open + 1..open + length], ScanPieces(s[open + length + 1..]))
  {
    hide IndexOf, Before;
  }

  lemma ScanStops(s: string)
    ensures IndexOf(s, '{').None? ==> ScanPieces(s) == Some([Literal(s)])
    ensures IndexOf(s, '{').Some? && IndexOf(s[IndexOf(s, '{').value..], '}').None? ==> ScanPieces(s).None?
  {
    hide IndexOf;
  }

  lemma PatternStep(s: string)
    ensures FirstMatch(s).None? ==> PatternPieces(s) == [Literal(s)]
    ensures FirstMatch(s).Some? ==>
              var m := FirstMatch(s).value;
              PatternPieces(s) == [Literal(s[..m.open]), Token(s[m.open + 1..m.close])] + PatternPieces(s[m.close + 1..])
  {
    hide FirstMatch;
  }

  /** And where the scan reads plain pieces, so does the pattern. */
  lemma {:induction false} ScanImpliesPattern(s: string)
    requires ScanPieces(s).Some? && PlainPieces(ScanPieces(s).value)
    ensures PatternPieces(s) == ScanPieces(s).value
    decreases |s|
  {
    hide FirstMatch, IndexOf, PlainPieces, ScanPieces, PatternPieces;
    ScanStops(s);
    PatternStep(s);
    var open := IndexOf(s, '{');
    if open.None? {
      NoMatchWithout(s);
    } else {
      var length := IndexOf(s[open.value..], '}').value;
      ScanStep(s, open.value, length);
      var text, name, tail := s[..open.value], s[open.value + 1..open.value + length], s[open.value + length + 1..];
      PiecesTail(Literal(text), Token(name), ScanPieces(tail).value);
      OneLiteral(text);
      PlainTokenMeans(name);
      ScanImpliesPattern(tail);
      PlainAround(s, open.value, length);
      MatchIsFirstOpen(s, open.value, open.value + length);
    }
  }

  lemma PlainTokenMeans(name: string)
    ensures PlainPieces([Token(name)]) <==> Plain(name)
  {
    assert Token(name) in [Token(name)];
  }

  /** The two tokenizers agree exactly on the drafts the pattern leaves no brace of: there they read the same pieces, and
      anywhere else the scan stops short or takes a brace for text or into a name. */
  lemma TokenizersAgree(s: string)
    ensures Plain(Leftover(PatternPieces(s))) <==> (ScanPieces(s).Some? && PlainPieces(ScanPieces(s).value))
    ensures Plain(Leftover(PatternPieces(s))) ==> ScanPieces(s) == Some(PatternPieces(s))
  {
    hide PatternPieces, ScanPieces, PlainPieces, Leftover;
    LeftoverIsLiterals(PatternPieces(s));
    if PlainLiterals(PatternPieces(s)) {
      PatternImpliesScan(s);
    }
    if ScanPieces(s).Some? && PlainPieces(ScanPieces(s).value) {
      ScanImpliesPattern(s);
      assert PlainLiterals(PatternPieces(s)) by { PiecesAreLiterals(PatternPieces(s)); }
    }
  }

  lemma PiecesAreLiterals(pieces: seq<Piece>)
    requires PlainPieces(pieces)
    ensures PlainLiterals(pieces)
  {}

  // ---- Render

  datatype RenderError = Unterminated(rest: string) | UnknownPlaceholder(token: string) | BadValue(token: string, e: FormatError)

  function Prepended(text: string, r: Result<string, RenderError>): Result<string, RenderError> {
    match r case Ok(tail) => Ok(text + tail) case Err(e) => Err(e)
  }

  /** Rendering from here on, with whatever goes wrong first. */
  function Rendered(rest: string, vocab: Vocabulary): Result<string, RenderError>
    decreases |rest|
  {
    match IndexOf(rest, '{')
    case None => Ok(rest)
    case Some(open) =>
      match IndexOf(rest[open..], '}')
      case None => Err(Unterminated(rest[open..]))
      case Some(length) =>
        var token := rest[open + 1..open + length];
        if token !in vocab then Err(UnknownPlaceholder(token))
        else match FormatOf(vocab[token])
          case Err(e) => Err(BadValue(token, e))
          case Ok(formatted) => Prepended(rest[..open] + formatted, Rendered(rest[open + length + 1..], vocab))
  }

  lemma RenderedStep(rest: string, vocab: Vocabulary, open: nat, length: nat)
    requires IndexOf(rest, '{') == Some(open) && IndexOf(rest[open..], '}') == Some(length)
    ensures open + length < |rest|
    ensures var token := rest[open + 1..open + length];
            Rendered(rest, vocab)
            == if token !in vocab then Err(UnknownPlaceholder(token))
               else if FormatOf(vocab[token]).Err? then Err(BadValue(token, FormatOf(vocab[token]).error))
               else Prepended(rest[..open] + FormatOf(vocab[token]).value, Rendered(rest[open + length + 1..], vocab))
  {
    hide FormatOf, IndexOf, Prepended;
  }

  lemma RenderedStops(rest: string, vocab: Vocabulary)
    ensures IndexOf(rest, '{').None? ==> Rendered(rest, vocab) == Ok(rest)
    ensures IndexOf(rest, '{').Some? && IndexOf(rest[IndexOf(rest, '{').value..], '}').None? ==>
              Rendered(rest, vocab) == Err(Unterminated(rest[IndexOf(rest, '{').value..]))
  {
    hide FormatOf, IndexOf;
  }

  method Render(draft: string, vocab: Vocabulary) returns (r: Result<string, RenderError>)
    ensures r == Rendered(draft, vocab)
  {
    hide FormatOf, IndexOf, Rendered;
    var out, rest := "", draft;
    PrependNothing(Rendered(draft, vocab));
    while true
      invariant Prepended(out, Rendered(rest, vocab)) == Rendered(draft, vocab)
      decreases |rest|
    {
      RenderedStops(rest, vocab);
      var open := IndexOf(rest, '{');
      if open.None? {
        return Ok(out + rest);
      }
      var close := IndexOf(rest[open.value..], '}');
      if close.None? {
        return Err(Unterminated(rest[open.value..]));
      }
      RenderedStep(rest, vocab, open.value, close.value);
      var token := rest[open.value + 1..open.value + close.value];
      if token !in vocab {
        return Err(UnknownPlaceholder(token));
      }
      var formatted := FormatValue(vocab[token]);
      if formatted.Err? {
        return Err(BadValue(token, formatted.error));
      }
      var text := rest[..open.value] + formatted.value;
      PrependTwice(out, text, Rendered(rest[open.value + close.value + 1..], vocab));
      out := out + text;
      rest := rest[open.value + close.value + 1..];
    }
  }

  lemma PrependNothing(r: Result<string, RenderError>)
    ensures Prepended("", r) == r
  {
    if r.Ok? {
      assert "" + r.value == r.value;
    }
  }

  lemma PrependTwice(a: string, b: string, r: Result<string, RenderError>)
    ensures Prepended(a, Prepended(b, r)) == Prepended(a + b, r)
  {
    if r.Ok? {
      assert a + (b + r.value) == a + b + r.value;
    }
  }

  // ---- what a rendering is

  ghost predicate Offered(pieces: seq<Piece>, vocab: Vocabulary) {
    forall p :: p in pieces && p.Token? ==> p.name in vocab && FormatOf(vocab[p.name]).Ok?
  }

  function PieceText(p: Piece, vocab: Vocabulary): string
    requires p.Token? ==> p.name in vocab && FormatOf(vocab[p.name]).Ok?
  {
    match p case Literal(text) => text case Token(name) => FormatOf(vocab[name]).value
  }

  /** The pieces in order, each token replaced by its formatted value. */
  function Substituted(pieces: seq<Piece>, vocab: Vocabulary): string
    requires Offered(pieces, vocab)
  {
    if pieces == [] then [] else PieceText(pieces[0], vocab) + Substituted(pieces[1..], vocab)
  }

  lemma SubstitutedPair(text: string, name: string, rest: seq<Piece>, vocab: Vocabulary)
    requires Offered([Literal(text), Token(name)] + rest, vocab) && name in vocab && FormatOf(vocab[name]).Ok?
    requires Offered(rest, vocab)
    ensures Substituted([Literal(text), Token(name)] + rest, vocab)
            == text + FormatOf(vocab[name]).value + Substituted(rest, vocab)
  {
    hide FormatOf;
    var pieces := [Literal(text), Token(name)] + rest;
    assert pieces[1..] == [Token(name)] + rest && pieces[1..][1..] == rest;
    assert Substituted(pieces, vocab) == text + Substituted(pieces[1..], vocab);
    assert Substituted(pieces[1..], vocab) == FormatOf(vocab[name]).value + Substituted(rest, vocab);
  }

  lemma SubstitutedAlone(text: string, vocab: Vocabulary)
    ensures Offered([Literal(text)], vocab) && Substituted([Literal(text)], vocab) == text
  {
    assert [Literal(text)][1..] == [];
    assert text + [] == text;
  }

  lemma OfferedTail(text: string, name: string, rest: seq<Piece>, vocab: Vocabulary)
    requires Offered([Literal(text), Token(name)] + rest, vocab)
    ensures name in vocab && FormatOf(vocab[name]).Ok? && Offered(rest, vocab)
  {
    hide FormatOf;
    assert Token(name) in [Literal(text), Token(name)] + rest;
  }

  /** Rendering a draft that scans to offered pieces is substituting them. */
  lemma {:induction false} RenderedIsSubstituted(s: string, vocab: Vocabulary)
    requires ScanPieces(s).Some? && Offered(ScanPieces(s).value, vocab)
    ensures Rendered(s, vocab) == Ok(Substituted(ScanPieces(s).value, vocab))
    decreases |s|
  {
    hide IndexOf, FormatOf, ScanPieces, Rendered, Substituted, Offered;
    ScanStops(s);
    RenderedStops(s, vocab);
    var open := IndexOf(s, '{');
    if open.None? {
      SubstitutedAlone(s, vocab);
    } else {
      var length := IndexOf(s[open.value..], '}').value;
      ScanStep(s, open.value, length);
      RenderedStep(s, vocab, open.value, length);
      var text, name, tail := s[..open.value], s[open.value + 1..open.value + length], s[open.value + length + 1..];
      OfferedTail(text, name, ScanPieces(tail).value, vocab);
      RenderedIsSubstituted(tail, vocab);
      SubstitutedPair(text, name, ScanPieces(tail).value, vocab);
    }
  }

  /** A character that would be a figure, or its unit, if the model had written it. */
  predicate IsFigureChar(c: char) { IsDigit(c) || c == '%' || c == '$' }

  /** The character at k of the rendering came out of a token's value. */
  ghost predicate FromToken(pieces: seq<Piece>, vocab: Vocabulary, k: nat)
    requires Offered(pieces, vocab)
  {
    pieces != []
    && var text := PieceText(pieces[0], vocab);
       if k < |text| then pieces[0].Token? else FromToken(pieces[1..], vocab, k - |text|)
  }

  ghost predicate NoFigures(s: string) {
    forall i :: 0 <= i < |s| ==> !IsFigureChar(s[i])
  }

  ghost predicate LiteralsHaveNoFigures(pieces: seq<Piece>) {
    forall p :: p in pieces && p.Literal? ==> NoFigures(p.text)
  }

  lemma {:induction false} FiguresComeFromTokens(pieces: seq<Piece>, vocab: Vocabulary, k: nat)
    requires Offered(pieces, vocab) && LiteralsHaveNoFigures(pieces)
    requires k < |Substituted(pieces, vocab)| && IsFigureChar(Substituted(pieces, vocab)[k])
    ensures FromToken(pieces, vocab, k)
  {
    hide FormatOf;
    var text := PieceText(pieces[0], vocab);
    var rest := Substituted(pieces[1..], vocab);
    if k < |text| {
      assert (text + rest)[k] == text[k];
    } else {
      assert (text + rest)[k] == rest[k - |text|];
      FiguresComeFromTokens(pieces[1..], vocab, k - |text|);
    }
  }

  ghost predicate PlainValues(pieces: seq<Piece>, vocab: Vocabulary)
    requires Offered(pieces, vocab)
  {
    forall p :: p in pieces ==> Plain(PieceText(p, vocab))
  }

  lemma {:induction false} SubstitutedIsPlain(pieces: seq<Piece>, vocab: Vocabulary)
    requires Offered(pieces, vocab) && PlainValues(pieces, vocab)
    ensures Plain(Substituted(pieces, vocab))
  {
    if pieces != [] {
      hide PieceText;
      SubstitutedIsPlain(pieces[1..], vocab);
    }
  }

  lemma {:induction false} PatternKeepsText(s: string)
    requires NoFigures(s)
    ensures LiteralsHaveNoFigures(PatternPieces(s))
    decreases |s|
  {
    hide FirstMatch;
    match FirstMatch(s)
    case None =>
    case Some(m) =>
      var tail := s[m.close + 1..];
      assert NoFigures(tail) && NoFigures(s[..m.open]);
      PatternKeepsText(tail);
  }
}
