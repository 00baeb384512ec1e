/** The dialect mode controller (src/lj_syntax.c).

    The runtime's parser state holds the active dialect (0 = classic,
    1 = extended), an auto-selection flag, and pointers to six interned
    words whose `reserved` byte decides whether the lexer reads them as a
    keyword.  Switching the dialect rewrites those six bytes at once. */
module Syntax {
  import opened Base
  import opened Tokens

  /** The six dialect-sensitive interned words. */
  datatype Word = FunctionWord | EndWord | FnWord | OperatorWord | UsingWord | NameOfWord

  /** The keyword a word spells: its own TKDEF entry. */
  function OwnToken(w: Word): (t: Token)
    ensures IsKeyword(t)
  {
    match w
    case FunctionWord => Function
    case EndWord => End
    case FnWord => Fn
    case OperatorWord => Operator
    case UsingWord => Using
    case NameOfWord => NameOf
  }

  /** The `reserved` bytes of the six words (`funcstr`, `end_str`, `fnstr`,
      `operstr`, `usingstr`, `nameof_str`). */
  datatype ReservedBytes = ReservedBytes(
    funcStr: uint8, endStr: uint8, fnStr: uint8,
    operStr: uint8, usingStr: uint8, nameofStr: uint8)

  /** The `reserved` byte of one word. */
  function Byte(b: ReservedBytes, w: Word): uint8 {
    match w
    case FunctionWord => b.funcStr
    case EndWord => b.endStr
    case FnWord => b.fnStr
    case OperatorWord => b.operStr
    case UsingWord => b.usingStr
    case NameOfWord => b.nameofStr
  }

  /** The part of the process-wide parser state this controller owns. */
  datatype ParserState = ParserState(mode: int32, autoselect: int32, words: ReservedBytes)

  /** The error `lua_setsyntaxmode` raises (`LJ_ERR_NUMRNG`). */
  datatype Error = RangeError

  predicate ValidMode(m: int) {
    m == 0 || m == 1
  }

  /** The reference table of the two dialects, in terms of tokens: which
      keyword each word reads as, or None for an ordinary name.  Classic
      reserves `function` and `end`; extended reserves `fn` (as the token
      of `function`), `operator`, `using` and `nameof`. */
  function DialectToken(extended: bool, w: Word): Option<Token> {
    if !extended then
      if w == FunctionWord || w == EndWord then Some(OwnToken(w)) else None
    else if w == FunctionWord || w == EndWord then None
    else if w == FnWord then Some(Function)
    else Some(OwnToken(w))
  }

  /** The `reserved` byte that makes a word read as the given token. */
  function Encode(o: Option<Token>): uint8 {
    match o
    case None => 0
    case Some(t) => Token2Reserved(Value(t))
  }

  /** The six `reserved` bytes agree with the mode. */
  predicate Consistent(s: ParserState) {
    && ValidMode(s.mode as int)
    && forall w :: Byte(s.words, w) == Encode(DialectToken(s.mode == 1, w))
  }

  /** `lua_getsyntaxmode`. */
  function GetMode(s: ParserState): int32 {
    s.mode
  }

  /** `lua_getsyntaxautosel`. */
  function GetAutoselect(s: ParserState): int32 {
    s.autoselect
  }

  /** `lua_setsyntaxmode`: reject a mode outside 0..1 before writing
      anything; do nothing if the mode is already active; otherwise store
      the mode and rewrite all six `reserved` bytes for the new dialect. */
  function SetMode(s: ParserState, mode: int32): (r: Result<ParserState, Error>)
    ensures r.Err? <==> !ValidMode(mode as int)
    ensures r.Err? ==> r.error == RangeError
    ensures r.Ok? ==> r.value.mode == mode && r.value.autoselect == s.autoselect
    ensures r.Ok? && mode == s.mode ==> r.value == s
    ensures r.Ok? && mode != s.mode ==> Consistent(r.value)
    ensures r.Ok? && Consistent(s) ==> Consistent(r.value)
  {
    if mode < 0 || mode > 1 then
      Err(RangeError)
    else if s.mode == mode then
      Ok(s)
    else if mode == 1 then
      Ok(s.(mode := mode, words := ReservedBytes(
        funcStr := 0,
        endStr := 0,
        // `fn` takes the code of `function`, so the token `fn` never appears
        fnStr := Token2Reserved(Value(Function)),
        operStr := Token2Reserved(Value(Operator)),
        usingStr := Token2Reserved(Value(Using)),
        nameofStr := Token2Reserved(Value(NameOf)))))
    else
      Ok(s.(mode := mode, words := ReservedBytes(
        funcStr := Token2Reserved(Value(Function)),
        endStr := Token2Reserved(Value(End)),
        fnStr := 0,
        operStr := 0,
        usingStr := 0,
        nameofStr := 0)))
  }

  /** `lua_setsyntaxautosel`: store `autoselect != 0` as 0 or 1. */
  function SetAutoselect(s: ParserState, autoselect: int32): (r: ParserState)
    ensures r.autoselect == 0 || r.autoselect == 1
    ensures r.autoselect == 1 <==> autoselect != 0
    ensures r.mode == s.mode && r.words == s.words
  {
    s.(autoselect := if autoselect != 0 then 1 else 0)
  }

  /** After a successful set, reading the mode gives the requested one. */
  lemma GetModeAfterSet(s: ParserState, mode: int32)
    requires SetMode(s, mode).Ok?
    ensures GetMode(SetMode(s, mode).value) == mode
    ensures ValidMode(mode as int)
  {
  }

  /** Setting a mode twice is the same as setting it once. */
  lemma SetModeIdempotent(s: ParserState, mode: int32)
    requires SetMode(s, mode).Ok?
    ensures SetMode(SetMode(s, mode).value, mode) == SetMode(s, mode)
  {
  }

  /** The bytes written when switching to the extended dialect. */
  lemma ExtendedBytes(s: ParserState)
    requires s.mode != 1
    ensures SetMode(s, 1).Ok?
    ensures var b := SetMode(s, 1).value.words;
      && b.funcStr == 0 && b.endStr == 0
      && b.fnStr == Token2Reserved(Value(Function)) == 9
      && b.operStr == 24 && b.usingStr == 25 && b.nameofStr == 26
      && forall w :: Byte(b, w) != Token2Reserved(Value(Fn))
  {
  }

  /** The bytes written when switching to the classic dialect. */
  lemma ClassicBytes(s: ParserState)
    requires s.mode != 0
    ensures SetMode(s, 0).Ok?
    ensures var b := SetMode(s, 0).value.words;
      && b.funcStr == Token2Reserved(Value(Function)) == 9
      && b.endStr == Token2Reserved(Value(End)) == 6
      && b.fnStr == 0 && b.operStr == 0 && b.usingStr == 0 && b.nameofStr == 0
  {
  }

  /** Switching away from a consistent state and back restores it exactly. */
  lemma SwitchRoundTrip(s: ParserState, other: int32)
    requires Consistent(s)
    requires ValidMode(other as int) && other != s.mode
    ensures SetMode(s, other).Ok?
    ensures SetMode(SetMode(s, other).value, s.mode) == Ok(s)
  {
    var back := SetMode(SetMode(s, other).value, s.mode).value;
    SameBytes(back, s);
  }

  /** Two consistent states with the same mode have the same bytes. */
  lemma SameBytes(a: ParserState, b: ParserState)
    requires Consistent(a) && Consistent(b) && a.mode == b.mode
    ensures a.words == b.words
  {
    assert Byte(a.words, FunctionWord) == Byte(b.words, FunctionWord);
    assert Byte(a.words, EndWord) == Byte(b.words, EndWord);
    assert Byte(a.words, FnWord) == Byte(b.words, FnWord);
    assert Byte(a.words, OperatorWord) == Byte(b.words, OperatorWord);
    assert Byte(a.words, UsingWord) == Byte(b.words, UsingWord);
    assert Byte(a.words, NameOfWord) == Byte(b.words, NameOfWord);
  }

  /** In a consistent state each word's byte decodes, through
      `TK_OFS + reserved`, to exactly the token the dialect table names. */
  lemma ConsistentDecodes(s: ParserState, w: Word)
    requires Consistent(s)
    ensures DialectToken(s.mode == 1, w).None? ==> ReservedToToken(Byte(s.words, w)).None?
    ensures DialectToken(s.mode == 1, w).Some? ==>
      ReservedToToken(Byte(s.words, w)) == Some(Value(DialectToken(s.mode == 1, w).value))
  {
  }

  /** No word of a consistent state reads as the token `fn`. */
  lemma NeverFnToken(s: ParserState, w: Word)
    requires Consistent(s)
    ensures ReservedToToken(Byte(s.words, w)) != Some(Value(Fn))
  {
  }

  /** No two words of a consistent state read as the same keyword. */
  lemma DistinctKeywords(s: ParserState, w1: Word, w2: Word)
    requires Consistent(s)
    requires w1 != w2 && Byte(s.words, w1) != 0
    ensures Byte(s.words, w1) != Byte(s.words, w2)
  {
  }

  /** Under the extended dialect `fn` reads as the token that `function`
      reads as under the classic one, and `function` is an ordinary name. */
  lemma FnAliasesFunction(classic: ParserState, extended: ParserState)
    requires Consistent(classic) && classic.mode == 0
    requires Consistent(extended) && extended.mode == 1
    ensures Byte(extended.words, FnWord) == Byte(classic.words, FunctionWord)
    ensures ReservedToToken(Byte(extended.words, FnWord)) == Some(Value(Function))
    ensures ReservedToToken(Byte(extended.words, FunctionWord)).None?
  {
  }

  /** The auto-selection flag reads back as 0 or 1, nonzero exactly when a
      nonzero value was stored; mode and keywords are untouched. */
  lemma AutoselectRoundTrip(s: ParserState, autoselect: int32)
    ensures GetAutoselect(SetAutoselect(s, autoselect)) != 0 <==> autoselect != 0
    ensures GetMode(SetAutoselect(s, autoselect)) == GetMode(s)
    ensures Consistent(SetAutoselect(s, autoselect)) <==> Consistent(s)
  {
  }

  /** Setting the mode and setting the flag act on disjoint parts of the
      state, so their order does not matter. */
  lemma ModeAndAutoselectCommute(s: ParserState, mode: int32, autoselect: int32)
    requires ValidMode(mode as int)
    ensures SetMode(SetAutoselect(s, autoselect), mode).Ok?
    ensures SetMode(SetAutoselect(s, autoselect), mode).value
         == SetAutoselect(SetMode(s, mode).value, autoselect)
  {
  }
}
