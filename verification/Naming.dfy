/** Bot names: the reserved suffix, decimal printing and versioned names. */
module Naming {
  import opened Boards

  predicate IsDigit(c: char) {
    '0' <= c <= '9'
  }

  predicate AllDigits(s: string) {
    forall i :: 0 <= i < |s| ==> IsDigit(s[i])
  }

  function DigitOf(d: nat): (c: char)
    requires d < 10
    ensures IsDigit(c)
  {
    "0123456789"[d]
  }

  /** A number in decimal, as `str` prints it. */
  function Decimal(n: nat): (s: string)
    ensures s != "" && AllDigits(s)
  {
    if n < 10 then [DigitOf(n)] else Decimal(n / 10) + [DigitOf(n % 10)]
  }

  function DigitValue(c: char): nat
    requires IsDigit(c)
  {
    c as int - '0' as int
  }

  /** The number a string of digits stands for. */
  function ReadDecimal(s: string): nat
    requires AllDigits(s)
  {
    if s == "" then 0 else 10 * ReadDecimal(s[..|s| - 1]) + DigitValue(s[|s| - 1])
  }

  lemma {:induction false} ReadBack(n: nat)
    ensures ReadDecimal(Decimal(n)) == n
  {
    assert forall d: nat :: d < 10 ==> DigitValue(DigitOf(d)) == d;
    if n < 10 {
      assert Decimal(n)[..0] == "";
    } else {
      ReadBack(n / 10);
      assert Decimal(n)[..|Decimal(n)| - 1] == Decimal(n / 10);
    }
  }

  /** `V` and one or more digits at the end of the name. */
  predicate HasVersionSuffix(name: string) {
    exists i :: 0 <= i < |name| - 1 && name[i] == 'V' && AllDigits(name[i + 1..])
  }

  datatype NameError = Missing | Reserved(name: string)

  function ValidateBotName(name: Option<string>): Option<NameError> {
    if name.None? || name.value == "" then Some(Missing)
    else if HasVersionSuffix(name.value) then Some(Reserved(name.value))
    else None
  }

  predicate Accepted(name: string) {
    ValidateBotName(Some(name)).None?
  }

  function VersionedName(base: string, version: nat): string {
    if version == 1 then base else base + "V" + Decimal(version)
  }

  /** Two suffixed names agree only when both parts do. */
  lemma SuffixedNamesDiffer(base: string, version: nat, base': string, version': nat)
    requires base + "V" + Decimal(version) == base' + "V" + Decimal(version')
    ensures base == base' && version == version'
  {
    var name := base + "V" + Decimal(version);
    var name' := base' + "V" + Decimal(version');
    assert name[|base|] == 'V' && name'[|base'|] == 'V';
    assert forall i :: |base| < i < |name| ==> name[i] == Decimal(version)[i - |base| - 1];
    assert forall i :: |base'| < i < |name'| ==> name'[i] == Decimal(version')[i - |base'| - 1];
    assert |base| == |base'|;
    assert base == name[..|base|] && base' == name'[..|base'|];
    assert Decimal(version) == name[|base| + 1..] && Decimal(version') == name'[|base'| + 1..];
    ReadBack(version);
    ReadBack(version');
  }

  /** Without any check on the names, the only collisions are between a first version
      whose base carries a version suffix and the later version that prints the same. */
  lemma CollisionExact(base: string, version: nat, base': string, version': nat)
    ensures VersionedName(base, version) == VersionedName(base', version') <==>
      || (base == base' && version == version')
      || (version == 1 && version' != 1 && base == base' + "V" + Decimal(version'))
      || (version' == 1 && version != 1 && base' == base + "V" + Decimal(version))
  {
    if version != 1 && version' != 1 && VersionedName(base, version) == VersionedName(base', version') {
      SuffixedNamesDiffer(base, version, base', version');
    }
  }

  lemma PrintedVersionIsReserved(base: string, version: nat)
    ensures HasVersionSuffix(base + "V" + Decimal(version))
  {
    var name := base + "V" + Decimal(version);
    assert name[|base|] == 'V' && name[|base| + 1..] == Decimal(version);
  }

  /** Accepted base names and versions are determined by the versioned name, within and
      across families. */
  lemma VersionedNameInjective(base: string, version: nat, base': string, version': nat)
    requires Accepted(base) && Accepted(base')
    ensures VersionedName(base, version) == VersionedName(base', version') <==> base == base' && version == version'
  {
    CollisionExact(base, version, base', version');
    PrintedVersionIsReserved(base, version);
    PrintedVersionIsReserved(base', version');
  }

  // ---------------------------------------------------------------- exact forms

  lemma {:induction false} ReadPositive(s: string)
    requires s != "" && AllDigits(s) && s[0] != '0'
    ensures ReadDecimal(s) > 0
  {
    if |s| > 1 {
      ReadPositive(s[..|s| - 1]);
    }
  }

  lemma DigitOfValue(c: char)
    requires IsDigit(c)
    ensures DigitValue(c) < 10 && DigitOf(DigitValue(c)) == c
  {
  }

  lemma {:induction false} NoLeadingZero(n: nat)
    ensures Decimal(n)[0] == '0' <==> n == 0
    ensures n < 10 ==> |Decimal(n)| == 1
  {
    if n >= 10 {
      NoLeadingZero(n / 10);
      assert Decimal(n)[0] == Decimal(n / 10)[0];
    }
  }

  lemma {:induction false} PrintsBack(s: string)
    requires s != "" && AllDigits(s) && (s[0] == '0' ==> |s| == 1)
    ensures Decimal(ReadDecimal(s)) == s
  {
    var front, c := s[..|s| - 1], s[|s| - 1];
    DigitOfValue(c);
    assert s == front + [c];
    if |s| == 1 {
      assert front == "" && ReadDecimal(s) == DigitValue(c);
    } else {
      PrintsBack(front);
      ReadPositive(front);
      var n := ReadDecimal(s);
      assert n / 10 == ReadDecimal(front) && n % 10 == DigitValue(c);
    }
  }

  /** A number is printed with digits that read as it, and no leading zero. */
  lemma DecimalExact(s: string, n: nat)
    ensures s == Decimal(n) <==> s != "" && AllDigits(s) && ReadDecimal(s) == n && (s[0] == '0' ==> |s| == 1)
  {
    ReadBack(n);
    NoLeadingZero(n);
    if s != "" && AllDigits(s) && ReadDecimal(s) == n && (s[0] == '0' ==> |s| == 1) {
      PrintsBack(s);
    }
  }

  /** The name ends in a version suffix. */
  ghost predicate EndsInVersion(name: string) {
    exists base, digits :: digits != "" && AllDigits(digits) && name == base + "V" + digits
  }

  lemma SuffixExact(name: string)
    ensures HasVersionSuffix(name) <==> EndsInVersion(name)
  {
    if HasVersionSuffix(name) {
      var i :| 0 <= i < |name| - 1 && name[i] == 'V' && AllDigits(name[i + 1..]);
      assert name == name[..i] + "V" + name[i + 1..];
    }
    if EndsInVersion(name) {
      var base, digits :| digits != "" && AllDigits(digits) && name == base + "V" + digits;
      assert name[|base|] == 'V' && name[|base| + 1..] == digits;
    }
  }

  /** Names are refused exactly if they are missing, or end in a version suffix. */
  lemma NameRefusedExactly(name: string)
    ensures ValidateBotName(None) == Some(Missing)
    ensures ValidateBotName(Some(name)) == Some(Missing) <==> name == ""
    ensures ValidateBotName(Some(name)) == Some(Reserved(name)) <==> EndsInVersion(name)
    ensures Accepted(name) <==> name != "" && !EndsInVersion(name)
  {
    SuffixExact(name);
  }
}
