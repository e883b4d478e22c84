/** Friendly names as base-5 numbers, and the radio address each name derives. */
module RadioName {
  import opened Residues
  import opened Options
  import opened Texts

  const CONSONANTS := "zvgpt"
  const VOWELS := "uoiea"
  const NAME_LENGTH := 5
  const NAMES := 3125

  const CHANNELS := 73
  const GROUPS := 241
  const FIRST_CHANNEL := 11
  const FIRST_GROUP := 15
  const INVERSE := 208      // of CHANNELS modulo GROUPS

  function Alphabet(position: nat): string {
    if position % 2 == 0 then CONSONANTS else VOWELS
  }

  predicate Fits(letter: char, position: nat) {
    letter in Alphabet(position)
  }

  function Letter(d: nat, position: nat): char
    requires d < 5
  {
    Alphabet(position)[d]
  }

  /** The index of a letter in its alphabet is its digit. */
  function Digit(letter: char, position: nat): (d: nat)
    ensures d < 5
  {
    var a := Alphabet(position);
    if letter == a[0] then 0 else if letter == a[1] then 1 else if letter == a[2] then 2
    else if letter == a[3] then 3 else 4
  }

  lemma DigitOfLetter(d: nat, position: nat)
    requires d < 5
    ensures Fits(Letter(d, position), position) && Digit(Letter(d, position), position) == d
  {}

  lemma LetterOfDigit(letter: char, position: nat)
    requires Fits(letter, position)
    ensures Letter(Digit(letter, position), position) == letter && !IsSpace(letter)
  {
    var a := Alphabet(position);
    assert a == [a[0], a[1], a[2], a[3], a[4]];
  }

  /** Each letter comes from the alphabet of its place. */
  predicate IsName(name: string) {
    forall i :: 0 <= i < |name| ==> Fits(name[i], i)
  }

  /** The first letter is the most significant digit. */
  function NameValue(name: string): nat {
    if name == "" then 0
    else
      var last := |name| - 1;
      NameValue(name[..last]) * 5 + Digit(name[last], last)
  }

  function NameOf(n: nat, length: nat): (name: string)
    ensures |name| == length
  {
    if length == 0 then "" else NameOf(n / 5, length - 1) + [Letter(n % 5, length - 1)]
  }

  function Power5(k: nat): nat {
    if k == 0 then 1 else 5 * Power5(k - 1)
  }

  // ---- names and numbers, of any length -----------------------------------------------

  lemma {:induction false} ValueOfName(n: nat, length: nat)
    ensures IsName(NameOf(n, length))
    ensures n < Power5(length) ==> NameValue(NameOf(n, length)) == n
  {
    hide Fits, Letter, Digit;
    if length > 0 {
      ValueOfName(n / 5, length - 1);
      DigitOfLetter(n % 5, length - 1);
      var name := NameOf(n, length);
      assert name[..length - 1] == NameOf(n / 5, length - 1);
    }
  }

  lemma {:induction false} NameOfValue(name: string)
    requires IsName(name)
    ensures NameValue(name) < Power5(|name|) && NameOf(NameValue(name), |name|) == name
  {
    hide Fits, Letter, Digit;
    if name != "" {
      var last := |name| - 1;
      LetterOfDigit(name[last], last);
      NameOfValue(name[..last]);
      assert name == name[..last] + [name[last]];
    }
  }

  lemma FiveLetters()
    ensures Power5(NAME_LENGTH) == NAMES
  {
    assert Power5(3) == 125;
  }

  /** _name_to_value(): blanks trimmed, case ignored. */
  function NameToValue(lower: string -> string, raw: string): Option<nat> {
    var name := lower(Strip(raw));
    if |name| == NAME_LENGTH && IsName(name) then Some(NameValue(name)) else None
  }

  lemma ValueGrows(name: string, k: nat)
    requires k < |name|
    ensures NameValue(name[..k + 1]) == NameValue(name[..k]) * 5 + Digit(name[k], k)
    ensures IsName(name[..k + 1]) <==> IsName(name[..k]) && Fits(name[k], k)
    ensures IsName(name) ==> Fits(name[k], k)
  {
    hide Digit, Fits;
    assert name[..k + 1][..k] == name[..k];
  }

  method ReadName(lower: string -> string, raw: string) returns (n: Option<nat>)
    ensures n == NameToValue(lower, raw)
  {
    var name := lower(Strip(raw));
    if |name| != NAME_LENGTH {
      return None;
    }
    hide Digit, Fits, Strip;
    var value := 0;
    assert NameValue(name[..0]) == 0 && IsName(name[..0]);
    hide NameValue, IsName;
    for position := 0 to |name|
      invariant IsName(name[..position]) && value == NameValue(name[..position])
    {
      ValueGrows(name, position);
      if !Fits(name[position], position) {
        return None;
      }
      value := value * 5 + Digit(name[position], position);
    }
    assert name[..|name|] == name;
    n := Some(value);
  }

  /** _value_to_name(): the last letter first, then reversed. */
  method WriteName(n: nat) returns (name: string)
    ensures name == NameOf(n, NAME_LENGTH)
  {
    hide Letter;
    var left, position := n, NAME_LENGTH;
    name := "";
    assert NameOf(n, NAME_LENGTH) + "" == NameOf(n, NAME_LENGTH);
    while position > 0
      invariant 0 <= position <= NAME_LENGTH
      invariant NameOf(left, position) + name == NameOf(n, NAME_LENGTH)
    {
      var letter := Letter(left % 5, position - 1);
      assert NameOf(left, position) + name == NameOf(left / 5, position - 1) + ([letter] + name);
      position := position - 1;
      name := [letter] + name;
      left := left / 5;
    }
  }

  // ---- names and radio addresses ----------------------------------------------------------

  datatype Address = Address(channel: int, group: int)

  function Derive(lower: string -> string, raw: string): Option<Address> {
    match NameToValue(lower, raw)
    case None => None
    case Some(n) => Some(Address(FIRST_CHANNEL + n % CHANNELS, FIRST_GROUP + n % GROUPS))
  }

  function AddressToName(a: Address): Option<string> {
    if !(11 <= a.channel <= 83 && 15 <= a.group <= 255) then None
    else
      var n := Solve(CHANNELS, GROUPS, INVERSE, a.channel - FIRST_CHANNEL, a.group - FIRST_GROUP);
      if n >= NAMES then None else Some(NameOf(n, NAME_LENGTH))
  }

  /** The digits a letter stands for at an even place and at an odd one. */
  predicate Consonant(c: char, d: nat) {
    || (c == 'z' && d == 0) || (c == 'v' && d == 1) || (c == 'g' && d == 2)
    || (c == 'p' && d == 3) || (c == 't' && d == 4)
  }

  predicate Vowel(c: char, d: nat) {
    || (c == 'u' && d == 0) || (c == 'o' && d == 1) || (c == 'i' && d == 2)
    || (c == 'e' && d == 3) || (c == 'a' && d == 4)
  }

  predicate Spells(name: string, d: seq<nat>) {
    && |name| == 5 == |d|
    && Consonant(name[0], d[0]) && Vowel(name[1], d[1]) && Consonant(name[2], d[2])
    && Vowel(name[3], d[3]) && Consonant(name[4], d[4])
  }

  /** The address of a name in numbers: five base-5 digits, the first the most
      significant, and their value's remainders by 73 and 241. */
  lemma AddressOfDigits(lower: string -> string, raw: string, d: seq<nat>)
    requires Spells(lower(Strip(raw)), d)
    ensures var n := 625 * d[0] + 125 * d[1] + 25 * d[2] + 5 * d[3] + d[4];
      n < 3125 && Derive(lower, raw) == Some(Address(11 + n % 73, 15 + n % 241))
  {
    var name := lower(Strip(raw));
    hide Strip;
    DigitAt(name, d, 0);
    DigitAt(name, d, 1);
    DigitAt(name, d, 2);
    DigitAt(name, d, 3);
    DigitAt(name, d, 4);
    hide Fits, Digit, Spells;
    FiveDigitValue(name);
  }

  lemma DigitAt(name: string, d: seq<nat>, k: nat)
    requires Spells(name, d) && k < 5
    ensures Fits(name[k], k) && Digit(name[k], k) == d[k] < 5
  {
    if k % 2 == 0 {
      EvenDigit(name[k], d[k], k);
    } else {
      OddDigit(name[k], d[k], k);
    }
    hide Fits, Digit, Consonant, Vowel;
  }

  lemma EvenDigit(c: char, d: nat, k: nat)
    requires k % 2 == 0
    ensures Consonant(c, d) ==> Fits(c, k) && Digit(c, k) == d < 5
  {
    assert CONSONANTS[0] == 'z' && CONSONANTS[1] == 'v' && CONSONANTS[2] == 'g';
    assert CONSONANTS[3] == 'p' && CONSONANTS[4] == 't';
  }

  lemma OddDigit(c: char, d: nat, k: nat)
    requires k % 2 == 1
    ensures Vowel(c, d) ==> Fits(c, k) && Digit(c, k) == d < 5
  {
    assert VOWELS[0] == 'u' && VOWELS[1] == 'o' && VOWELS[2] == 'i';
    assert VOWELS[3] == 'e' && VOWELS[4] == 'a';
  }

  lemma FiveDigitValue(name: string)
    requires |name| == 5
    ensures NameValue(name) == 625 * Digit(name[0], 0) + 125 * Digit(name[1], 1) + 25 * Digit(name[2], 2)
                                + 5 * Digit(name[3], 3) + Digit(name[4], 4)
  {
    hide Digit, Fits;
    ValueGrows(name, 0);
    ValueGrows(name, 1);
    ValueGrows(name, 2);
    ValueGrows(name, 3);
    ValueGrows(name, 4);
    assert name[..5] == name;
    hide NameValue, IsName;
    EmptyValue();
  }

  lemma EmptyValue()
    ensures NameValue("") == 0
  {}

  /** And nothing but five such letters has one. */
  lemma AddressedIff(lower: string -> string, raw: string)
    ensures Derive(lower, raw).Some? <==> exists d :: Spells(lower(Strip(raw)), d)
  {
    var name := lower(Strip(raw));
    hide Strip;
    if Derive(lower, raw).Some? {
      var d: seq<nat> := seq(5, i requires 0 <= i < 5 => Digit(name[i], i));
      forall i: nat | i < 5
        ensures if i % 2 == 0 then Consonant(name[i], d[i]) else Vowel(name[i], d[i])
      {
        assert Fits(name[i], i);
      }
      assert Spells(name, d);
    }
    if exists d :: Spells(name, d) {
      var d :| Spells(name, d);
      forall i: nat | i < 5
        ensures Fits(name[i], i)
      {
        DigitAt(name, d, i);
      }
    }
  }

  lemma InverseIsRight()
    ensures InverseOf(CHANNELS, GROUPS, INVERSE)
  {
    assert 73 * 208 - 1 == 241 * 63;
  }

  /** Lower-casing leaves what is already a friendly name alone. */
  ghost predicate KeepsNames(lower: string -> string) {
    forall name :: IsName(name) ==> lower(name) == name
  }

  lemma NameReadsItself(lower: string -> string, name: string)
    requires KeepsNames(lower) && IsName(name) && |name| == NAME_LENGTH
    ensures NameToValue(lower, name) == Some(NameValue(name))
  {
    assert Fits(name[0], 0) && Fits(name[4], 4);
    LetterOfDigit(name[0], 0);
    LetterOfDigit(name[4], 4);
    hide IsSpace, Fits, NameValue;
    assert StripRight(name) == name && Blanks(name) == 0;
  }

  lemma AddressFindsName(name: string)
    requires IsName(name) && |name| == NAME_LENGTH
    ensures var n := NameValue(name);
      AddressToName(Address(FIRST_CHANNEL + n % CHANNELS, FIRST_GROUP + n % GROUPS)) == Some(name)
  {
    hide NameOf, NameValue, IsName, AddressToName, Power5;
    NameOfValue(name);
    FiveLetters();
    NumberFindsItself(NameValue(name));
  }

  lemma NumberFindsItself(n: nat)
    requires n < NAMES
    ensures AddressToName(Address(FIRST_CHANNEL + n % CHANNELS, FIRST_GROUP + n % GROUPS))
              == Some(NameOf(n, NAME_LENGTH))
  {
    hide NameOf, Solve, InverseOf;
    InverseIsRight();
    assert n < CHANNELS * GROUPS;
    SolveIsUnique(CHANNELS, GROUPS, INVERSE, n);
    var c, g := n % CHANNELS, n % GROUPS;
    assert Solve(CHANNELS, GROUPS, INVERSE, c, g) == n;
  }

  /** However a board's name was typed, its address leads back to the name itself. */
  lemma AddressFindsItsName(lower: string -> string, raw: string)
    requires Derive(lower, raw).Some?
    ensures AddressToName(Derive(lower, raw).value) == Some(lower(Strip(raw)))
  {
    AddressFindsName(lower(Strip(raw)));
    hide Strip, IsName, NameValue, AddressToName;
  }

  /** An address has a name exactly when that name derives the address; all other
      pairs belong to no name. */
  lemma NameOwnsAddressIff(lower: string -> string, a: Address, name: string)
    requires KeepsNames(lower)
    ensures AddressToName(a) == Some(name) <==>
              |name| == NAME_LENGTH && IsName(name) && Derive(lower, name) == Some(a)
  {
    hide KeepsNames, IsName, Strip, NameValue, InverseOf;
    if |name| == NAME_LENGTH && IsName(name) {
      NameReadsItself(lower, name);
      AddressFindsName(name);
    }
    if AddressToName(a) == Some(name) {
      var c, g := a.channel - FIRST_CHANNEL, a.group - FIRST_GROUP;
      var n := Solve(CHANNELS, GROUPS, INVERSE, c, g);
      InverseIsRight();
      SolveSolves(CHANNELS, GROUPS, INVERSE, c, g);
      hide Solve;
      FiveLetters();
      ValueOfName(n, NAME_LENGTH);
      NameReadsItself(lower, name);
    }
  }

  /** No two names share an address, and none falls on the reserved channels or groups. */
  lemma AddressesAreDistinct(lower: string -> string, r1: string, r2: string)
    requires Derive(lower, r1).Some? && Derive(lower, r1) == Derive(lower, r2)
    ensures lower(Strip(r1)) == lower(Strip(r2))
    ensures 11 <= Derive(lower, r1).value.channel <= 83 && 15 <= Derive(lower, r1).value.group <= 255
  {
    AddressFindsItsName(lower, r1);
    AddressFindsItsName(lower, r2);
    hide Strip, NameToValue, AddressToName;
  }
}
