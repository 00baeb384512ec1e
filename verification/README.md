# Dialect switch, keyword codes and symbol mangling of the LuaR lexer

This project models three small, pure pieces of the lexical front end of
the LuaR runtime (a LuaJIT derivative with two surface dialects) and proves
properties of them in Dafny 4.11.

- `tokens.dfy` (module `Tokens`): the token numbering that the `TKDEF`
  macro and the enum after it lay out in `src/lj_lex.h` — 42 tokens numbered
  consecutively from `TK_OFS + 1 = 257`, the first 26 of them keywords — and
  `lj_lex_token2reserved`, which stores a keyword as the one-byte code
  `tok - TK_OFS` in its interned string, 0 meaning "ordinary name".
- `syntax.dfy` (module `Syntax`): the process-wide mode controller of
  `src/lj_syntax.c`. The state is a record of the mode (0 = classic,
  1 = extended), the auto-selection flag, and the `reserved` bytes of the six
  words `function`, `end`, `fn`, `operator`, `using`, `nameof`.
  `lua_setsyntaxmode` is the pure function `SetMode`, which returns
  `Ok(newState)` or `Err(RangeError)`. A mode change rewrites the six bytes
  from one of two fixed tables. `Consistent` says that the bytes agree with
  the mode. It is defined against an independent token-level table
  (`DialectToken`) encoded through `lj_lex_token2reserved`.
- `mangling.dfy` (module `Mangling`): the `LexMKind` enum and the three
  mangling headers `"__LRop_"`, `"__LRaop_"` and `"__LRvop_"` with their
  `_LEN` macros. `HeaderOf` maps a kind to its header, as the header comments
  document. `Mangle(kind, sym)` is the header followed by the symbol.
  `Demangle` is its inverse.
- `base.dfy` (module `Base`): `Option`, `Result`, the C types `int32_t` and
  `uint8_t`, and the C conversion to `uint8_t` (reduction modulo 256).

Facts of the code that the model keeps:
- `lua_setsyntaxmode` rewrites the `reserved` bytes of six words, `fn` and
  `function` sharing one keyword token across the two dialects.
- Nothing in `src/lj_lex.h` keeps a user identifier from starting with a
  mangling header; `HeadersAreIdentifiers` shows that a header followed by
  a lower-case word has the shape of an identifier.
- `lua_setsyntaxautosel` stores the integer `autoselect != 0`, so the flag
  reads back as 0 or 1.

## Model

| member | source | states |
|---|---|---|
| Base.ToUint8 | src/lj_lex.h:34 | the `uint8_t` conversion leaves 0..255 unchanged and otherwise differs from its argument by a multiple of 256 |
| Tokens.Position | src/lj_lex.h:16-22 | every token has a place among the 42 entries of the TKDEF listing |
| Tokens.PositionInjective | src/lj_lex.h:16-22 | the TKDEF listing names no token twice, so a position identifies its token |
| Tokens.Value | src/lj_lex.h:24-28 | every token value lies in 257..298, above the byte range of single-character tokens |
| Tokens.FromValue | src/lj_lex.h:24-28 | a value names a token exactly when it is in 257..298, and the token it names has that value |
| Tokens.ValueRoundTrip | src/lj_lex.h:24-28 | decoding a token's enum value gives the token back |
| Tokens.ValueInjective | src/lj_lex.h:24-28 | distinct tokens have distinct enum values |
| Tokens.TokenNumbering | src/lj_lex.h:16-31 | `TK_and = 257`, `TK_nameof = 282`, `TK_eof = 298`, `TK_RESERVED = 26`; the keywords are exactly the first 26 entries |
| Tokens.Spelling | src/lj_lex.h:16-22 | every token has a nonempty text; it starts with a letter exactly for the keywords, so only keywords can clash with names |
| Tokens.Token2Reserved | src/lj_lex.h:34 | the `uint8_t` cast keeps `tok - TK_OFS` unchanged whenever it lies in 0..255 |
| Tokens.ReservedToToken | src/lj_lex.h:31-34 | reserved byte 0 means "not a keyword"; any other code decodes to `TK_OFS + code`, which encodes back to the same code; each code in 1..`TK_RESERVED` decodes to a keyword whose own code it is |
| Tokens.KeywordCode | src/lj_lex.h:31-34 | a keyword's code lies in 1..`TK_RESERVED` (never 0, never truncated), and code + `TK_OFS` is the keyword token again |
| Tokens.KeywordCodeInjective | src/lj_lex.h:34 | distinct keywords get distinct reserved codes |
| Syntax.SetMode | src/lj_syntax.c:20-47 | an out-of-range mode fails with `RangeError` and nothing is written. Requesting the current mode returns the state unchanged. A change stores the mode, keeps the flag, and leaves bytes that agree with the new mode. Agreement between bytes and mode is preserved |
| Syntax.SetAutoselect | src/lj_syntax.c:56-61 | the stored flag is 0 or 1, and 1 exactly when the argument is nonzero; the mode and the six bytes are untouched |
| Syntax.GetModeAfterSet | src/lj_syntax.c:13-30 | after a successful set, `lua_getsyntaxmode` (modelled by `GetMode`) returns the requested mode, which is 0 or 1 |
| Syntax.SetModeIdempotent | src/lj_syntax.c:29 | setting a mode a second time changes nothing |
| Syntax.ExtendedBytes | src/lj_syntax.c:31-37 | switching to mode 1 writes 0 to `function` and `end`, the code of `function` (9) to `fn`, and 24, 25, 26 to the others. No word gets the code of `fn` |
| Syntax.ClassicBytes | src/lj_syntax.c:38-45 | switching to mode 0 gives `function` code 9 and `end` code 6; the four other words get 0 |
| Syntax.SwitchRoundTrip | src/lj_syntax.c:20-47 | from a consistent state, switching to the other mode and back restores the state exactly |
| Syntax.SameBytes | src/lj_syntax.c:30-45 | the mode determines the six bytes of a consistent state |
| Syntax.ConsistentDecodes | src/lj_syntax.c:31-45 | in a consistent state each word's byte decodes through `TK_OFS + reserved` to the token the dialect table names, or to "name" |
| Syntax.NeverFnToken | src/lj_syntax.c:34 | in a consistent state no word reads as the token `fn` |
| Syntax.DistinctKeywords | src/lj_syntax.c:31-45 | in a consistent state no two words read as the same keyword |
| Syntax.FnAliasesFunction | src/lj_syntax.c:31-45 | under mode 1, `fn` reads as the token that `function` reads as under mode 0, and `function` is a plain name |
| Syntax.AutoselectRoundTrip | src/lj_syntax.c:49-61 | through `lua_getsyntaxautosel` (modelled by `GetAutoselect`) the flag reads back as nonzero exactly when a nonzero value was stored; the mode and the agreement of bytes with the mode are unaffected |
| Syntax.ModeAndAutoselectCommute | src/lj_syntax.c:20-61 | setting the mode and setting the flag act on disjoint state, so their order does not matter |
| Mangling.KindValue | src/lj_lex.h:55-62 | `MK_none` is the only kind with value 0; the values stay within 0..5 |
| Mangling.HeaderLengths | src/lj_lex.h:117-126 | `LUAR_OPHDR_LEN = 7`, `LUAR_AOPHDR_LEN = 8`, `LUAR_VAROPHDR_LEN = 8`, each equal to its string's length |
| Mangling.HeaderOf | src/lj_lex.h:114-125 | `MK_none` and `MK_unknown` have no header; `MK_oper` and `MK_index` (and only they) use `"__LRop_"`; only `MK_newindex` uses `"__LRaop_"`; only `MK_vname` uses `"__LRvop_"` |
| Mangling.PrefixFree | src/lj_lex.h:117-125 | no header is a prefix of a different header |
| Mangling.Mangle | src/lj_lex.h:114-126 | a mangled name exists exactly for the kinds with a header; it starts with that header and continues with the symbol |
| Mangling.Demangle | src/lj_lex.h:114-126 | a name that is split is the header followed by the rest; a name that is not split starts with no header |
| Mangling.DemangleMangle | src/lj_lex.h:114-126 | demangling a mangled name gives back its header and symbol |
| Mangling.MangleInjective | src/lj_lex.h:114-126 | two mangled names are equal only when the kinds share a header and the symbols are equal |
| Mangling.OperAndIndexShareNames | src/lj_lex.h:114-117 | `MK_oper` and `MK_index` mangle alike; `(MK_oper, "+")` gives `"__LRop_+"` and `(MK_newindex, "foo")` gives `"__LRaop_foo"` |
| Mangling.HeadersAreIdentifiers | src/lj_lex.h:117-125 | a header followed by a lower-case word is a legal identifier, so headers do not keep mangled names apart from user names |

## Left out

- The scanner (`lj_lex_setup`, `lj_lex_next`, `lj_lex_lookahead`, `lj_lex_token2str`, `lj_lex_error`, `lj_lex_init`, `lj_lex_cleanup`): only their prototypes are in `src/lj_lex.h`; the file that implements them is not part of this model. Tokenizing, line counting, lookahead, end-of-input behaviour and literal decoding are therefore not modelled. `ReservedToToken` models only the meaning of the reserved byte, not the lookup that reads it.
- The `LexState` record, the reader callback, the string buffer, string interning, `chunkname`/`chunkarg` and the `b`/`t` mode string: these belong to I/O, the garbage collector and the loader.
- The `BCInsLine` and `VarInfo` stacks: scratch space for the parser, with no behaviour in the header.
- The substitution slots `xsub`, `xbase`, `xkey` and the `mkind` field: opaque fields whose protocol lives in code that is not part of this model.
- Raising the error: `lj_err_throw` unwinds after pushing the message `LJ_ERR_NUMRNG` onto the Lua stack. The model returns `Err(RangeError)` instead. The `return LUA_ERRRUN` after the throw is unreachable.
- Where the state lives: the parser state is a field of the process-wide global state reached through `lua_State`. The model passes the state in and returns the new one. Sharing across concurrent compilations is not modelled.
- The initial values of the mode, the flag and the six bytes are set elsewhere, so `Consistent` is stated as a hypothesis, not an initial fact.
- `src/lj_syntax.h`: it holds only prototypes.
- `IsIdentifier` (used by `HeadersAreIdentifiers`) is the usual Lua name shape over ASCII letters, digits and `_`, assumed rather than taken from the scanner, which is not part of this model; the scanner may accept more (bytes of 0x80 and above), which only widens the set of identifiers.
