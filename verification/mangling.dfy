/** Symbol mangling headers (src/lj_lex.h).

    An operator or field-operator definition is stored under a global
    name made of a fixed header followed by the operator's symbol text.
    The header depends on the mangling kind of the name being defined. */
module Mangling {
  import opened Base

  /** `LexMKind`, in declaration order. */
  datatype Kind = MkNone | MkUnknown | MkOper | MkIndex | MkNewIndex | MkVName

  /** The value of a kind in the C enum: `MK_none` is 0, so a zeroed
      lexer state asks for no mangling. */
  function KindValue(k: Kind): (v: nat)
    ensures v == 0 <==> k == MkNone
    ensures v <= 5
  {
    match k
    case MkNone => 0
    case MkUnknown => 1
    case MkOper => 2
    case MkIndex => 3
    case MkNewIndex => 4
    case MkVName => 5
  }

  /** The three header strings. */
  datatype Header = OpHdr | AOpHdr | VarOpHdr

  const LUAR_OPHDR: string := "__LRop_"
  const LUAR_AOPHDR: string := "__LRaop_"
  const LUAR_VAROPHDR: string := "__LRvop_"

  /** `sizeof` of a C string literal: its characters plus the NUL. */
  function SizeOfLiteral(lit: string): nat {
    |lit| + 1
  }

  const LUAR_OPHDR_LEN: int := SizeOfLiteral(LUAR_OPHDR) - 1
  const LUAR_AOPHDR_LEN: int := SizeOfLiteral(LUAR_AOPHDR) - 1
  const LUAR_VAROPHDR_LEN: int := SizeOfLiteral(LUAR_VAROPHDR) - 1

  function Text(h: Header): string {
    match h
    case OpHdr => LUAR_OPHDR
    case AOpHdr => LUAR_AOPHDR
    case VarOpHdr => LUAR_VAROPHDR
  }

  /** The `_LEN` macro of a header. */
  function Length(h: Header): int {
    match h
    case OpHdr => LUAR_OPHDR_LEN
    case AOpHdr => LUAR_AOPHDR_LEN
    case VarOpHdr => LUAR_VAROPHDR_LEN
  }

  /** Each `_LEN` macro is the length of its string, without the NUL. */
  lemma HeaderLengths()
    ensures LUAR_OPHDR_LEN == 7 && LUAR_AOPHDR_LEN == 8 && LUAR_VAROPHDR_LEN == 8
    ensures forall h :: Length(h) == |Text(h)|
  {
  }

  /** The header the documentation assigns to a mangling kind: operators
      and field-read operators share one, field-write operators and
      variable-named operators have their own, and `MK_none` and
      `MK_unknown` have none. */
  function HeaderOf(k: Kind): (r: Option<Header>)
    ensures r.None? <==> k == MkNone || k == MkUnknown
    ensures r == Some(OpHdr) <==> k == MkOper || k == MkIndex
    ensures r == Some(AOpHdr) <==> k == MkNewIndex
    ensures r == Some(VarOpHdr) <==> k == MkVName
  {
    match k
    case MkNone => None
    case MkUnknown => None
    case MkOper => Some(OpHdr)
    case MkIndex => Some(OpHdr)
    case MkNewIndex => Some(AOpHdr)
    case MkVName => Some(VarOpHdr)
  }

  /** No header is a prefix of another one. */
  lemma PrefixFree(h1: Header, h2: Header)
    requires h1 != h2
    ensures !(Text(h1) <= Text(h2))
  {
    assert Text(h1)[4] != Text(h2)[4];
  }

  /** The global name for a symbol of a given kind: header then symbol.
      Kinds without a header have no mangled name. */
  function Mangle(k: Kind, sym: string): (r: Option<string>)
    ensures r.Some? <==> HeaderOf(k).Some?
    ensures r.Some? ==> Text(HeaderOf(k).value) <= r.value
    ensures r.Some? ==> r.value[Length(HeaderOf(k).value)..] == sym
  {
    match HeaderOf(k)
    case None => None
    case Some(h) => Some(Text(h) + sym)
  }

  /** Splits a name into a header and the symbol after it, if it starts
      with one of the headers. */
  function Demangle(name: string): (r: Option<(Header, string)>)
    ensures r.Some? ==> name == Text(r.value.0) + r.value.1
    ensures r.None? ==> forall h :: !(Text(h) <= name)
  {
    if LUAR_OPHDR <= name then Some((OpHdr, name[|LUAR_OPHDR|..]))
    else if LUAR_AOPHDR <= name then Some((AOpHdr, name[|LUAR_AOPHDR|..]))
    else if LUAR_VAROPHDR <= name then Some((VarOpHdr, name[|LUAR_VAROPHDR|..]))
    else None
  }

  /** Demangling a mangled name recovers the header class and the symbol. */
  lemma DemangleMangle(k: Kind, sym: string)
    requires HeaderOf(k).Some?
    ensures Demangle(Mangle(k, sym).value) == Some((HeaderOf(k).value, sym))
  {
    var h := HeaderOf(k).value;
    var name := Text(h) + sym;
    assert Text(h) <= name;
    match Demangle(name)
    case Some((h', sym')) =>
      assert Text(h') <= name;
      if h' != h {
        PrefixDisagree(Text(h), Text(h'), name);
        PrefixFree(h, h');
        PrefixFree(h', h);
      }
      assert sym' == name[|Text(h)|..] == sym;
  }

  /** Two prefixes of one string: the shorter is a prefix of the longer. */
  lemma PrefixDisagree(a: string, b: string, s: string)
    requires a <= s && b <= s
    ensures a <= b || b <= a
  {
  }

  /** Mangled names of two (kind, symbol) pairs coincide only when the
      kinds share a header and the symbols are equal. */
  lemma MangleInjective(k1: Kind, s1: string, k2: Kind, s2: string)
    requires Mangle(k1, s1).Some? && Mangle(k1, s1) == Mangle(k2, s2)
    ensures HeaderOf(k1) == HeaderOf(k2)
    ensures s1 == s2
  {
    DemangleMangle(k1, s1);
    DemangleMangle(k2, s2);
  }

  /** `MK_oper` and `MK_index` share a header, so mangling does not tell
      them apart. */
  lemma OperAndIndexShareNames(sym: string)
    ensures Mangle(MkOper, sym) == Mangle(MkIndex, sym)
    ensures Mangle(MkOper, "+") == Some("__LRop_+")
    ensures Mangle(MkNewIndex, "foo") == Some("__LRaop_foo")
  {
    assert LUAR_OPHDR + "+" == "__LRop_+";
    assert LUAR_AOPHDR + "foo" == "__LRaop_foo";
  }

  /** The shape of a name in source text: a letter or underscore, then
      letters, digits and underscores. */
  predicate IsIdentifier(s: string) {
    && |s| > 0
    && ('a' <= s[0] <= 'z' || 'A' <= s[0] <= 'Z' || s[0] == '_')
    && forall i :: 0 < i < |s| ==>
         'a' <= s[i] <= 'z' || 'A' <= s[i] <= 'Z' || '0' <= s[i] <= '9' || s[i] == '_'
  }

  /** Nothing in the headers keeps them out of the identifier space: each
      header followed by a name-shaped symbol is itself a name a user can
      write, so mangled names are set apart only by convention. */
  lemma HeadersAreIdentifiers(k: Kind, sym: string)
    requires HeaderOf(k).Some?
    requires forall i :: 0 <= i < |sym| ==> 'a' <= sym[i] <= 'z'
    ensures IsIdentifier(Mangle(k, sym).value)
  {
  }
}
