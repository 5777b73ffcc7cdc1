/** Which inputs normalize to which symbol, character by character. */
module SymbolLaws {
  import opened Prelude
  import opened Symbols

  /** The Unicode white space characters. */
  predicate Blank(c: char) {
    var n := c as int;
    n in {9, 10, 11, 12, 13, 32, 0x85, 0xA0, 0x1680, 0x2028, 0x2029, 0x202F, 0x205F, 0x3000} || 0x2000 <= n < 0x200B
  }

  /** 1 to 10 capital letters, digits and dots. */
  predicate Ticker(s: string) {
    0 < |s| < 11 && forall i :: 0 <= i < |s| ==>
      'A' <= s[i] <= 'Z' || '0' <= s[i] <= '9' || s[i] == '.'
  }

  /** c is s, its small letter, or one of the two other letters whose capital it is. */
  predicate CaseOf(c: char, s: char) {
    || c == s
    || ('A' <= s <= 'Z' && c as int == s as int + 32)
    || (s == 'I' && c as int == 0x131) || (s == 'S' && c as int == 0x17F)
  }

  /** raw is the symbol in any mixture of cases, between `lead` blanks and further blanks. */
  predicate Spells(raw: string, sym: string, lead: nat) {
    && lead + |sym| <= |raw|
    && (forall i :: 0 <= i < lead ==> Blank(raw[i]))
    && (forall i :: 0 <= i < |sym| ==> CaseOf(raw[lead + i], sym[i]))
    && (forall i :: lead + |sym| <= i < |raw| ==> Blank(raw[i]))
  }

  lemma SameTables(s: string)
    ensures Ticker(s) <==> IsValidSymbol(s)
    ensures forall c :: Blank(c) <==> IsSpace(c)
  {
  }

  lemma UpperIsCase(c: char, s: char)
    requires IsSymbolChar(s)
    ensures Upper(c) == s <==> CaseOf(c, s)
    ensures CaseOf(c, s) ==> !IsSpace(c)
  {
  }

  lemma {:induction false} TrimLeftStops(s: string, lead: nat)
    requires lead < |s| && !IsSpace(s[lead]) && forall i :: 0 <= i < lead ==> IsSpace(s[i])
    ensures TrimLeft(s) == s[lead..]
    decreases lead
  {
    if lead > 0 {
      TrimLeftStops(s[1..], lead - 1);
    }
  }

  lemma {:induction false} TrimRightStops(s: string, n: nat)
    requires 0 < n <= |s| && !IsSpace(s[n - 1]) && forall i :: n <= i < |s| ==> IsSpace(s[i])
    ensures TrimRight(s) == s[..n]
    decreases |s|
  {
    if n < |s| {
      TrimRightStops(s[..|s| - 1], n);
      assert s[..|s| - 1][..n] == s[..n];
    } else {
      assert s[..n] == s;
    }
  }

  lemma {:induction false} TrimLeftShape(s: string) returns (lead: nat)
    ensures lead <= |s| && TrimLeft(s) == s[lead..] && forall i :: 0 <= i < lead ==> IsSpace(s[i])
    decreases |s|
  {
    lead := 0;
    if |s| > 0 && IsSpace(s[0]) {
      lead := TrimLeftShape(s[1..]);
      forall i | 0 <= i < lead + 1
        ensures IsSpace(s[i])
      {
        assert i > 0 ==> s[1..][i - 1] == s[i];
      }
      lead := lead + 1;
    }
  }

  lemma {:induction false} TrimRightShape(s: string) returns (n: nat)
    ensures n <= |s| && TrimRight(s) == s[..n] && forall i :: n <= i < |s| ==> IsSpace(s[i])
    decreases |s|
  {
    n := |s|;
    if |s| > 0 && IsSpace(s[|s| - 1]) {
      n := TrimRightShape(s[..|s| - 1]);
    }
  }

  /** Whatever normalizes to a symbol spells it. */
  lemma NormalizedSpells(raw: string) returns (lead: nat)
    requires Normalize(raw).Some?
    ensures Spells(raw, Normalize(raw).value, lead)
  {
    hide TrimLeft, TrimRight, IsSpace, Upper, CaseOf, IsSymbolChar;
    var sym := Normalize(raw).value;
    lead := TrimLeftShape(raw);
    var n := TrimRightShape(raw[lead..]);
    assert TrimSpace(raw) == raw[lead..lead + n];
    SameTables(sym);
    forall i | 0 <= i < |sym|
      ensures CaseOf(raw[lead + i], sym[i])
    {
      UpperIsCase(raw[lead + i], sym[i]);
    }
    forall i | lead + |sym| <= i < |raw|
      ensures Blank(raw[i])
    {
      assert raw[lead..][i - lead] == raw[i];
    }
  }

  /** Whatever spells a valid symbol normalizes to it. */
  lemma SpelledNormalizes(raw: string, sym: string, lead: nat)
    requires Ticker(sym) && Spells(raw, sym, lead)
    ensures Normalize(raw) == Some(sym)
  {
    hide TrimLeft, TrimRight, IsSpace, Upper, CaseOf, IsSymbolChar;
    SameTables(sym);
    forall i | 0 <= i < |sym|
      ensures Upper(raw[lead + i]) == sym[i]
    {
      UpperIsCase(raw[lead + i], sym[i]);
    }
    assert CaseOf(raw[lead + 0], sym[0]) && CaseOf(raw[lead + (|sym| - 1)], sym[|sym| - 1]);
    UpperIsCase(raw[lead], sym[0]);
    UpperIsCase(raw[lead + |sym| - 1], sym[|sym| - 1]);
    TrimLeftStops(raw, lead);
    TrimRightStops(raw[lead..], |sym|);
    assert TrimSpace(raw) == raw[lead..][..|sym|];
    assert ToUpper(TrimSpace(raw)) == sym;
  }

  /**
   An input is accepted as a symbol exactly when it is that symbol in any mixture of cases with white
   space on either side, and the symbol is well-formed.
   */
  lemma NormalizeIff(raw: string, sym: string)
    ensures Normalize(raw) == Some(sym) <==> Ticker(sym) && exists lead: nat :: Spells(raw, sym, lead)
  {
    hide Spells, TrimSpace, ToUpper;
    SameTables(sym);
    if Normalize(raw) == Some(sym) {
      var lead := NormalizedSpells(raw);
    }
    if Ticker(sym) && exists lead: nat :: Spells(raw, sym, lead) {
      var lead: nat :| Spells(raw, sym, lead);
      SpelledNormalizes(raw, sym, lead);
    }
  }
}
