/** The token language of the generator's own lexer (`scan_next` and
    `scan_until_section` in c-ini/c-ini.c), written as pure functions of the
    input buffer and the scan position. `Scan` is the specification the
    imperative `Parser.ScanNext` is proved against; the lemmas below state
    what each kind of token looks like. */
module Lexer {
  import opened Support

  /** `enum token`: the ten one-byte punctuation tokens carry their byte. */
  datatype Token =
    | TokError
    | TokEnd
    | TokPunct(c: byte)
    | TokIdentifier
    | TokString
    | TokInteger
    | TokFloat

  /** What the lexer leaves in `p->value` for the token it returns. Float
      values are not modelled, only the fact that a float was read. */
  datatype Lexeme = LexStr(sv: StrView) | LexInt(i: int) | LexFloat

  /** The parts of `struct parser` the lexer moves: `tail` (where the
      current token starts, for diagnostics), `head` and `value`. */
  datatype Cursor = Cursor(tail: nat, head: nat, value: Lexeme)

  /** A token together with the cursor left after it. */
  datatype Lexed = Lexed(tok: Token, c: Cursor)

  /** The value carries what the token needs: a view for identifiers and
      strings, an integer for integer literals, the float marker for float
      literals. */
  predicate Carries(tok: Token, v: Lexeme) {
    && (tok.TokIdentifier? || tok.TokString? ==> v.LexStr? && v.sv.Valid())
    && (tok.TokInteger? ==> v.LexInt?)
    && (tok.TokFloat? ==> v.LexFloat?)
  }

  /** As `Carries`, with views into `data` itself. */
  predicate Fits(data: seq<byte>, tok: Token, v: Lexeme) {
    Carries(tok, v) && (tok.TokIdentifier? || tok.TokString? ==> v.sv.source == data)
  }

  /** What holds after any token: the cursors lie in order inside the
      buffer, the value carries what the token needs, a punctuation token is
      the byte just before `head`, and an identifier is a non-empty view
      that ends at `head`. */
  predicate Current(data: seq<byte>, tok: Token, c: Cursor) {
    && c.tail <= c.head <= |data|
    && Fits(data, tok, c.value)
    && (tok.TokPunct? ==> 0 < c.head && data[c.head - 1] == tok.c)
    && (tok.TokIdentifier? ==> c.value.sv.off + c.value.sv.len == c.head && 0 < c.value.sv.len)
  }

  /** What one `scan_next` from `c` guarantees of its result `r`: `head`
      never moves back, moves forward on every token but END, and reaches
      the end of the buffer on END and ERROR; `tail` is at or after where
      the scan started. */
  predicate Advances(data: seq<byte>, c: Cursor, r: Lexed) {
    && Current(data, r.tok, r.c)
    && c.head <= r.c.tail
    && (r.tok != TokEnd ==> c.head < r.c.head)
    && (r.tok == TokEnd || r.tok == TokError ==> r.c.head == |data|)
  }

  /** `cstr_equal(w, p->value.str)` on an identifier or string value. */
  predicate IsWord(v: Lexeme, w: seq<byte>) {
    v.LexStr? && v.sv.Valid() && CstrEqual(w, v.sv)
  }

  const Punctuation: seq<byte> := "{}[]()=,*;"

  predicate IsPunct(c: byte) { c in Punctuation }

  predicate IsIdentStart(c: byte) { IsAlpha(c) || c == '_' || c == '-' }

  predicate IsIdentChar(c: byte) { IsAlnum(c) || c == '_' || c == '-' }

  /** `/` followed by `second` at position `h`; a `/` in the last byte opens
      nothing (the source peeks one byte past the buffer there). */
  predicate OpensComment(data: seq<byte>, h: nat, second: byte) {
    h + 1 < |data| && data[h] == '/' && data[h + 1] == second
  }

  predicate ClosesBlockAt(data: seq<byte>, i: nat) {
    i + 1 < |data| && data[i] == '*' && data[i + 1] == '/'
  }

  /** Where a block comment whose body starts at `i` ends: just past the
      first `*` `/`, or the end of the buffer when there is none. */
  function BlockCommentEnd(data: seq<byte>, i: nat): (j: nat)
    requires i <= |data|
    ensures i <= j <= |data|
    ensures j < |data| ==> i + 2 <= j && ClosesBlockAt(data, j - 2)
    ensures forall k | i <= k && k + 2 < j :: !ClosesBlockAt(data, k)
    ensures j == |data| && !(i + 2 <= j && ClosesBlockAt(data, j - 2)) ==>
              forall k | i <= k < |data| :: !ClosesBlockAt(data, k)
    decreases |data| - i
  {
    if i == |data| then i
    else if ClosesBlockAt(data, i) then i + 2
    else BlockCommentEnd(data, i + 1)
  }

  /** Where a line comment whose body starts at `i` ends: just past the first
      newline, or the end of the buffer when there is none. */
  function LineCommentEnd(data: seq<byte>, i: nat): (j: nat)
    requires i <= |data|
    ensures i <= j <= |data|
    ensures j < |data| ==> i < j && data[j - 1] == '\n'
    ensures forall k | i <= k < j - 1 :: data[k] != '\n'
    ensures j == |data| && !(i < j && data[j - 1] == '\n') ==>
              forall k | i <= k < |data| :: data[k] != '\n'
    decreases |data| - i
  {
    if i == |data| then i
    else if data[i] == '\n' then i + 1
    else LineCommentEnd(data, i + 1)
  }

  /** The end of the maximal run of decimal digits starting at `i`. */
  function DigitRunEnd(data: seq<byte>, i: nat): (j: nat)
    requires i <= |data|
    ensures i <= j <= |data|
    ensures forall k | i <= k < j :: IsDigit(data[k])
    ensures j == |data| || !IsDigit(data[j])
    decreases |data| - i
  {
    if i == |data| || !IsDigit(data[i]) then i else DigitRunEnd(data, i + 1)
  }

  /** The end of the maximal run of identifier bytes starting at `i`. */
  function IdentRunEnd(data: seq<byte>, i: nat): (j: nat)
    requires i <= |data|
    ensures i <= j <= |data|
    ensures forall k | i <= k < j :: IsIdentChar(data[k])
    ensures j == |data| || !IsIdentChar(data[j])
    decreases |data| - i
  {
    if i == |data| || !IsIdentChar(data[i]) then i else IdentRunEnd(data, i + 1)
  }

  /** A `"` not preceded by a backslash ends a string literal. */
  predicate ClosesString(data: seq<byte>, k: nat)
    requires 1 <= k < |data|
  {
    data[k] == '"' && data[k - 1] != '\\'
  }

  /** The position of the quote that closes a string whose body starts at
      `i`, or the end of the buffer when there is none. */
  function StringEnd(data: seq<byte>, i: nat): (j: nat)
    requires 1 <= i <= |data|
    ensures i <= j <= |data|
    ensures j < |data| ==> ClosesString(data, j)
    ensures forall k | i <= k < j :: !ClosesString(data, k)
    decreases |data| - i
  {
    if i == |data| || ClosesString(data, i) then i else StringEnd(data, i + 1)
  }

  /** Where a float literal whose `.` is at `dot` ends: after the fraction
      digits and an optional `f`. */
  function FloatEnd(data: seq<byte>, dot: nat): (j: nat)
    requires dot < |data|
    ensures dot < j <= |data|
  {
    var e := DigitRunEnd(data, dot + 1);
    if e < |data| && data[e] == 'f' then e + 1 else e
  }

  /** An integer or float literal whose first digit is at `h`. The value
      of an integer is the number its digits spell; of a float, only the
      marker. */
  function NumberAt(data: seq<byte>, tail: nat, h: nat): (r: Lexed)
    requires tail <= h < |data| && IsDigit(data[h])
    ensures Current(data, r.tok, r.c) && r.c.tail == tail && h < r.c.head
    ensures r.tok == TokInteger || r.tok == TokFloat
  {
    var e := DigitRunEnd(data, h);
    if e < |data| && data[e] == '.' then
      Lexed(TokFloat, Cursor(tail, FloatEnd(data, e), LexFloat))
    else
      assert forall k | 0 <= k < |data[h..e]| :: IsDigit(data[h..e][k]);
      Lexed(TokInteger, Cursor(tail, e, LexInt(DecimalValue(data[h..e]))))
  }

  /** A string literal whose opening quote is at `h`: its value is the view
      between the quotes; with no closing quote it is an error. The source
      has already set the view's start by then; the model leaves the value
      alone instead, which nothing can observe since the error ends the run. */
  function StringAt(data: seq<byte>, tail: nat, h: nat, v: Lexeme): (r: Lexed)
    requires tail <= h < |data|
    ensures Current(data, r.tok, r.c) && r.c.tail == tail && h < r.c.head
    ensures r.tok == TokString || (r.tok == TokError && r.c.head == |data|)
  {
    var e := StringEnd(data, h + 1);
    if e == |data| then Lexed(TokError, Cursor(tail, e, v))
    else Lexed(TokString, Cursor(tail, e + 1, LexStr(StrView(data, h + 1, e - (h + 1)))))
  }

  /** An identifier whose first byte is at `h`. */
  function IdentifierAt(data: seq<byte>, tail: nat, h: nat): (r: Lexed)
    requires tail <= h < |data|
    ensures Current(data, TokIdentifier, r.c) && r.tok == TokIdentifier && r.c.tail == tail && h < r.c.head
  {
    var e := IdentRunEnd(data, h + 1);
    Lexed(TokIdentifier, Cursor(tail, e, LexStr(StrView(data, h, e - h))))
  }

  /** The token that starts at `h` once comments are out of the way, with
      `tail` where this pass of the loop started and `v` the value before
      the scan; `None` when the byte at `h` starts no token and is skipped.
      Punctuation leaves the value alone. */
  function TokenAt(data: seq<byte>, tail: nat, h: nat, v: Lexeme): (r: Option<Lexed>)
    requires tail <= h < |data|
    ensures r.Some? ==> Current(data, r.value.tok, r.value.c) && r.value.c.tail == tail && h < r.value.c.head
    ensures r.Some? && r.value.tok == TokError ==> r.value.c.head == |data|
    ensures r.Some? ==> r.value.tok != TokEnd
  {
    var c := data[h];
    if IsPunct(c) then Some(Lexed(TokPunct(c), Cursor(tail, h + 1, v)))
    else if IsDigit(c) then Some(NumberAt(data, tail, h))
    else if c == '"' then Some(StringAt(data, tail, h, v))
    else if IsIdentStart(c) then Some(IdentifierAt(data, tail, h))
    else None
  }

  /** Where the comment checks at the top of the loop of `scan_next` leave
      `head`: past a block comment opened at `h`, then past a line comment
      opened there; the end of the buffer when a comment runs into it. */
  function AfterComments(data: seq<byte>, h: nat): (h2: nat)
    requires h < |data|
    ensures h <= h2 <= |data|
  {
    var h1 := if OpensComment(data, h, '*') then BlockCommentEnd(data, h + 2) else h;
    if h1 == |data| then h1
    else if OpensComment(data, h1, '/') then LineCommentEnd(data, h1 + 2)
    else h1
  }

  /** One call of `scan_next` from the cursor `c`: END at the end of the
      buffer, otherwise the passes of its loop, the first of which starts
      `tail` at `head`. */
  function Next(data: seq<byte>, c: Cursor): (r: Lexed)
    requires c.head <= |data|
    ensures Advances(data, c, r)
    decreases |data| - c.head, 1
  {
    if c.head == |data| then Lexed(TokEnd, Cursor(c.head, c.head, c.value)) else Pass(data, c.head, c.value)
  }

  /** One pass of the loop of `scan_next` from `h`: comments, then a token,
      or a skipped byte after which both `tail` and `head` stand past it and
      the loop goes on. A comment running into the end of the buffer, even
      one whose terminator is the last byte, is an error. */
  function Pass(data: seq<byte>, h: nat, v: Lexeme): (r: Lexed)
    requires h < |data|
    ensures Advances(data, Cursor(h, h, v), r)
    decreases |data| - h, 0
  {
    var h2 := AfterComments(data, h);
    if h2 == |data| then Lexed(TokError, Cursor(h, h2, v))
    else
      match TokenAt(data, h, h2, v)
      case Some(r) => r
      case None => Next(data, Cursor(h2 + 1, h2 + 1, v))
  }

  /** One call of `scan_next` as the parser's methods state it: `Next`
      behind a non-recursive layer, so that a caller sees one pass of the
      lexer's loop at a time. */
  function Scan(data: seq<byte>, c: Cursor): (r: Lexed)
    requires c.head <= |data|
  {
    Next(data, c)
  }

  const SectionKeyword: seq<byte> := "SECTION"

  predicate SectionAt(data: seq<byte>, i: nat) {
    i + |SectionKeyword| <= |data| && data[i..i + |SectionKeyword|] == SectionKeyword
  }

  /** The first position at or after `h` where the seven bytes `SECTION`
      start, if any. `scan_until_section` ignores all structure: the word is
      found inside identifiers, comments and strings alike. */
  function FindSection(data: seq<byte>, h: nat): (p: Option<nat>)
    requires h <= |data|
    ensures p.Some? ==> h <= p.value && SectionAt(data, p.value) &&
                        forall k | h <= k < p.value :: !SectionAt(data, k)
    ensures p.None? ==> forall k | h <= k <= |data| :: !SectionAt(data, k)
    decreases |data| - h
  {
    if h == |data| then None
    else if SectionAt(data, h) then Some(h)
    else FindSection(data, h + 1)
  }

  /** `FindSection` as the contract of `Parser.ScanUntilSection` states
      it, so that a caller sees one step of the search at a time. */
  function FindSectionSpec(data: seq<byte>, h: nat): (p: Option<nat>)
    requires h <= |data|
  {
    FindSection(data, h)
  }

  // ---------------------------------------------------------------------
  // What each kind of token looks like.

  /** Each of `{ } [ ] ( ) = , * ;` is its own token, consumes exactly one
      byte and leaves the value alone. */
  lemma PunctuationIsOneByte(data: seq<byte>, c: Cursor)
    requires c.head < |data| && IsPunct(data[c.head])
    ensures Next(data, c) == Lexed(TokPunct(data[c.head]), Cursor(c.head, c.head + 1, c.value))
  {
    assert !OpensComment(data, c.head, '*') && !OpensComment(data, c.head, '/');
  }

  /** A maximal run of digits not followed by `.` is an integer literal
      whose value is the decimal number the digits spell; followed by `.`,
      it is a float literal that also takes the fraction digits and an
      optional `f`. */
  lemma DigitsAreNumbers(data: seq<byte>, c: Cursor)
    requires c.head < |data| && IsDigit(data[c.head])
    ensures var h := c.head;
            var e := DigitRunEnd(data, h);
            var r := Next(data, c);
            && h < e
            && (forall k | h <= k < e :: IsDigit(data[k]))
            && (e == |data| || !IsDigit(data[e]))
            && (e < |data| && data[e] == '.' ==>
                  r == Lexed(TokFloat, Cursor(h, FloatEnd(data, e), LexFloat)))
            && (!(e < |data| && data[e] == '.') ==>
                  r == Lexed(TokInteger, Cursor(h, e, LexInt(DecimalValue(data[h..e])))))
  {
    assert !OpensComment(data, c.head, '*') && !OpensComment(data, c.head, '/');
  }

  /** A string literal's value is the view strictly between its quotes; no
      quote inside it lacks a preceding backslash; and with no closing
      quote the lexer reports an error. */
  lemma StringLiteralSpan(data: seq<byte>, c: Cursor)
    requires c.head < |data| && data[c.head] == '"'
    ensures var h := c.head;
            var r := Next(data, c);
            && (r.tok == TokError <==> forall k | h + 1 <= k < |data| :: !ClosesString(data, k))
            && (r.tok != TokError ==>
                  && r.tok == TokString
                  && var sv := r.c.value.sv;
                     && sv.source == data && sv.off == h + 1 && sv.off + sv.len < |data|
                     && data[sv.off + sv.len] == '"' && r.c.head == sv.off + sv.len + 1
                     && forall k | sv.off <= k < sv.off + sv.len :: data[k] == '"' ==> data[k - 1] == '\\')
  {
    var h := c.head;
    assert !OpensComment(data, h, '*') && !OpensComment(data, h, '/');
    var e := StringEnd(data, h + 1);
    forall k | h + 1 <= k < e ensures data[k] == '"' ==> data[k - 1] == '\\' {
      assert !ClosesString(data, k);
    }
  }

  /** An identifier is the maximal run of `[A-Za-z0-9_-]` that starts at a
      byte of `[A-Za-z_-]`. */
  lemma IdentifierIsMaximal(data: seq<byte>, c: Cursor)
    requires c.head < |data| && IsIdentStart(data[c.head])
    ensures var h := c.head;
            var r := Next(data, c);
            && r.tok == TokIdentifier
            && var sv := r.c.value.sv;
               && sv.source == data && sv.off == h && r.c.head == sv.off + sv.len
               && (forall k | h <= k < r.c.head :: IsIdentChar(data[k]))
               && (r.c.head == |data| || !IsIdentChar(data[r.c.head]))
  {
    assert !IsPunct(data[c.head]) && !IsDigit(data[c.head]) && data[c.head] != '"';
    assert !OpensComment(data, c.head, '*') && !OpensComment(data, c.head, '/');
  }

  /** A block comment that runs to the end of the buffer is an error, also
      when its terminator is the buffer's last two bytes. */
  lemma BlockCommentReachingEndIsError(data: seq<byte>, c: Cursor)
    requires OpensComment(data, c.head, '*') && BlockCommentEnd(data, c.head + 2) == |data|
    ensures Next(data, c) == Lexed(TokError, Cursor(c.head, |data|, c.value))
  {
  }

  /** The same holds of a line comment, also when the newline that ends it
      is the buffer's last byte. */
  lemma LineCommentReachingEndIsError(data: seq<byte>, c: Cursor)
    requires OpensComment(data, c.head, '/') && LineCommentEnd(data, c.head + 2) == |data|
    ensures Next(data, c) == Lexed(TokError, Cursor(c.head, |data|, c.value))
  {
    assert !OpensComment(data, c.head, '*');
  }

  /** A byte that starts neither a token nor a comment. */
  predicate Skipped(c: byte) {
    !IsPunct(c) && !IsDigit(c) && c != '"' && !IsIdentStart(c) && c != '/'
  }

  /** A run of skipped bytes (blanks, newlines, `#`, ...) only moves the
      cursor: scanning from its start is scanning from its end, `tail`
      included. */
  lemma {:induction false} SkippedBytesAreIgnored(data: seq<byte>, c: Cursor, k: nat)
    requires c.head <= k <= |data|
    requires forall i | c.head <= i < k :: Skipped(data[i])
    ensures Next(data, c) == Next(data, Cursor(k, k, c.value))
    decreases k - c.head
  {
    if c.head < k {
      assert !OpensComment(data, c.head, '*') && !OpensComment(data, c.head, '/');
      assert Next(data, c) == Pass(data, c.head, c.value);
      SkippedBytesAreIgnored(data, Cursor(c.head + 1, c.head + 1, c.value), k);
    }
  }
}
