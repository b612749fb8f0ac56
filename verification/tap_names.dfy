/** Names the forward hook gives to module firings in
    `sam_generate_features_torch` (loss/sam_perceptural.py):
    `f'{module.__class__.__name__}_{hook_fn.counter}'`. */
module TapNames {

  function DigitChar(d: nat): (c: char)
    requires d < 10
    ensures '0' <= c <= '9'
  {
    ('0' as int + d) as char
  }

  /** Python's `str(n)` for a non-negative integer. */
  function NatToString(n: nat): (s: string)
    ensures |s| >= 1
    ensures forall i :: 0 <= i < |s| ==> '0' <= s[i] <= '9'
    ensures n >= 10 ==> |s| >= 2
    decreases n
  {
    if n < 10 then [DigitChar(n)] else NatToString(n / 10) + [DigitChar(n % 10)]
  }

  /** Different counters print differently. */
  lemma {:induction false} NatToStringInjective(a: nat, b: nat)
    requires NatToString(a) == NatToString(b)
    ensures a == b
    decreases a
  {
    var s := NatToString(a);
    if a >= 10 && b >= 10 {
      assert DigitChar(a % 10) == s[|s| - 1] == DigitChar(b % 10);
      assert NatToString(a / 10) == s[..|s| - 1] == NatToString(b / 10);
      NatToStringInjective(a / 10, b / 10);
    }
  }

  /** Name of a firing of a module of class `cls` when the counter is `counter`. */
  function TapName(cls: string, counter: nat): string {
    cls + "_" + NatToString(counter)
  }

  /** A tap name determines both the class name and the counter, even when
      class names themselves contain underscores ("Conv2d_BN_33"): the
      counter is the digit run after the last underscore. */
  lemma {:induction false} TapNameInjective(c1: string, i: nat, c2: string, j: nat)
    requires TapName(c1, i) == TapName(c2, j)
    ensures c1 == c2 && i == j
  {
    var s := TapName(c1, i);
    var d1 := NatToString(i);
    var d2 := NatToString(j);
    assert s == c1 + "_" + d1 == c2 + "_" + d2;
    assert s[|c1|] == '_' && s[|c2|] == '_';
    assert |d1| == |d2|;
    assert d1 == s[|s| - |d1|..] == d2;
    NatToStringInjective(i, j);
    assert c1 == s[..|s| - |d1| - 1] == c2;
  }

  /** Examples of the names the configured layer list refers to. */
  lemma ConfiguredNameExamples()
    ensures TapName("GELU", 3) == "GELU_3"
    ensures TapName("Conv2d_BN", 33) == "Conv2d_BN_33"
    ensures TapName("Conv2d_BN", 57) == "Conv2d_BN_57"
  {
    assert NatToString(33) == NatToString(3) + [DigitChar(3)];
    assert NatToString(57) == NatToString(5) + [DigitChar(7)];
  }
}
