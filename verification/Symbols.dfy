/** Stock symbols: trimming, upper-casing and validation. */
module Symbols {
  import opened Prelude

  /** unicode.IsSpace. */
  predicate IsSpace(c: char) {
    var n := c as int;
    9 <= n <= 13 || n == 32 || n == 0x85 || n == 0xA0 || n == 0x1680 || 0x2000 <= n <= 0x200A ||
    n == 0x2028 || n == 0x2029 || n == 0x202F || n == 0x205F || n == 0x3000
  }

  function TrimLeft(s: string): string {
    if |s| > 0 && IsSpace(s[0]) then TrimLeft(s[1..]) else s
  }

  function TrimRight(s: string): string {
    if |s| > 0 && IsSpace(s[|s| - 1]) then TrimRight(s[..|s| - 1]) else s
  }

  function TrimSpace(s: string): string {
    TrimRight(TrimLeft(s))
  }

  /**
   unicode.ToUpper, exact wherever the result can be an ASCII character: besides a-z only the
   dotless i (U+0131) and the long s (U+017F) have an ASCII capital. Other letters keep their code,
   which like their true capital is outside the symbol alphabet.
   */
  function Upper(c: char): char {
    if 'a' <= c <= 'z' then (c as int - 32) as char
    else if c as int == 0x131 then 'I'
    else if c as int == 0x17F then 'S'
    else c
  }

  function ToUpper(s: string): (u: string)
    ensures |u| == |s| && forall i :: 0 <= i < |s| ==> u[i] == Upper(s[i])
  {
    seq(|s|, i requires 0 <= i < |s| => Upper(s[i]))
  }

  predicate IsSymbolChar(c: char) {
    'A' <= c <= 'Z' || '0' <= c <= '9' || c == '.'
  }

  /** ^[A-Z0-9.]{1,10}$ */
  predicate IsValidSymbol(s: string) {
    1 <= |s| <= 10 && forall i :: 0 <= i < |s| ==> IsSymbolChar(s[i])
  }

  /** normalizeSymbol; None is ErrInvalidSymbol. */
  function Normalize(symbol: string): (r: Option<string>)
    ensures r.Some? ==> IsValidSymbol(r.value)
  {
    var sym := ToUpper(TrimSpace(symbol));
    if IsValidSymbol(sym) then Some(sym) else None
  }

  /** A valid symbol is a fixed point, so normalizing twice is normalizing once. */
  lemma NormalizeIdempotent(symbol: string)
    ensures IsValidSymbol(symbol) ==> Normalize(symbol) == Some(symbol)
    ensures Normalize(symbol).Some? ==> Normalize(Normalize(symbol).value) == Normalize(symbol)
  {
    if IsValidSymbol(symbol) {
      NormalizeFixes(symbol);
    }
    if Normalize(symbol).Some? {
      NormalizeFixes(Normalize(symbol).value);
    }
  }

  lemma NormalizeFixes(sym: string)
    requires IsValidSymbol(sym)
    ensures Normalize(sym) == Some(sym)
  {
    assert IsSymbolChar(sym[0]) && IsSymbolChar(sym[|sym| - 1]);
    assert TrimSpace(sym) == sym;
    assert ToUpper(sym) == sym;
  }
}
