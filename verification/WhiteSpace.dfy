/** The white space that trimming and the lexer know: that of ECMAScript, in three places. */
module WhiteSpace {
  import Utf8Text
  import SlashLexer
  import TurnHistory

  /** White space and line ends of sections 12.2 and 12.3 of ECMA-262. */
  const WHITE_SPACE: set<int> := {
    0x9, 0xA, 0xB, 0xC, 0xD, 0x20, 0xA0, 0x1680, 0x2000, 0x2001, 0x2002, 0x2003, 0x2004, 0x2005, 0x2006, 0x2007,
    0x2008, 0x2009, 0x200A, 0x2028, 0x2029, 0x202F, 0x205F, 0x3000, 0xFEFF
  }

  lemma {:induction false} OneTable(u: int)
    requires 0 <= u < 0x10000
    ensures Utf8Text.IsSpace(u) <==> u in WHITE_SPACE
    ensures SlashLexer.IsSpace(u) <==> u in WHITE_SPACE
    ensures !(0xD800 <= u < 0xE000) ==> (TurnHistory.IsBlank(u as char) <==> u in WHITE_SPACE)
  {
  }
}
