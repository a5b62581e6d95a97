/** The supported ISO codes and the case folding used to look them up. */
module Currency {
  const SUPPORTED: set<string> := {"USD", "CRC", "EUR", "PAB", "GTQ"}

  /** Upper-casing of one character. Besides a-z, two non-ASCII characters have
      an ASCII upper case: long s and dotless i. */
  function Upper(c: char): char {
    if 'a' <= c <= 'z' then ((c as int) - 32) as char
    else if c == '\U{017F}' then 'S'
    else if c == '\U{0131}' then 'I'
    else c
  }

  function ToUpper(s: string): string {
    seq(|s|, i requires 0 <= i < |s| => Upper(s[i]))
  }

  predicate IsSupported(code: string) {
    ToUpper(code) in SUPPORTED
  }

  /** The characters whose upper case is an upper-case letter. */
  predicate FoldsTo(c: char, letter: char) {
    || c == letter || c as int == letter as int + 32
    || (letter == 'S' && c == '\U{017F}') || (letter == 'I' && c == '\U{0131}')
  }

  predicate Spells(code: string, name: string) {
    |code| == |name| && forall i | 0 <= i < |name| :: FoldsTo(code[i], name[i])
  }

  lemma SpellsUpper(code: string, name: string)
    requires forall i | 0 <= i < |name| :: 'A' <= name[i] <= 'Z'
    ensures ToUpper(code) == name <==> Spells(code, name)
  {
    if ToUpper(code) == name {
      forall i | 0 <= i < |name| ensures FoldsTo(code[i], name[i]) {
        assert name[i] == ToUpper(code)[i] == Upper(code[i]);
      }
    }
    if Spells(code, name) {
      forall i | 0 <= i < |name| ensures ToUpper(code)[i] == name[i] {
        assert FoldsTo(code[i], name[i]);
      }
    }
  }

  /** Five codes are supported, in any letter case. */
  lemma SupportedIff(code: string)
    ensures IsSupported(code) <==>
      || Spells(code, "USD") || Spells(code, "CRC") || Spells(code, "EUR")
      || Spells(code, "PAB") || Spells(code, "GTQ")
  {
    SpellsUpper(code, "USD");
    SpellsUpper(code, "CRC");
    SpellsUpper(code, "EUR");
    SpellsUpper(code, "PAB");
    SpellsUpper(code, "GTQ");
  }
}
