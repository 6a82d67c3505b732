/** Window labels `"window-N"` and the counter that numbers them. */
module Labels {
  import opened Wrappers
  import Decimal

  const Prefix: string := "window-"

  /** The label `format!("window-{}", n)`. */
  function Label(n: nat): (l: string)
    ensures |Prefix| < |l| && l[..|Prefix|] == Prefix
    ensures Decimal.AllDigits(l[|Prefix|..])
  {
    Prefix + Decimal.FromNat(n)
  }

  /** The number a label was formatted from, if it has the `"window-"` shape at all. */
  function LabelIndex(l: string): (n: Option<nat>) {
    if |Prefix| < |l| && l[..|Prefix|] == Prefix && Decimal.AllDigits(l[|Prefix|..])
    then Some(Decimal.ToNat(l[|Prefix|..]))
    else None
  }

  lemma LabelIndexOfLabel(n: nat)
    ensures LabelIndex(Label(n)) == Some(n)
  {
    var l := Label(n);
    assert l[|Prefix|..] == Decimal.FromNat(n);
    Decimal.ToNatFromNat(n);
  }

  lemma LabelInjective(a: nat, b: nat)
    ensures Label(a) == Label(b) <==> a == b
  {
    if Label(a) == Label(b) {
      LabelIndexOfLabel(a);
      LabelIndexOfLabel(b);
    }
  }

  /** `"main"`, the label of the window the host creates from its configuration, is no counter label. */
  lemma MainIsNoLabel(n: nat)
    ensures Label(n) != "main"
    ensures LabelIndex("main") == None
  {
    assert Label(n)[0] == 'w';
  }

  // The source keeps the counter in an `AtomicU32`, whose `fetch_add` wraps modulo 2^32.

  const U32Modulus: nat := 0x1_0000_0000

  /** `fetch_add(1)` on a 32-bit cell: the stored value, and what is stored after it. */
  function FetchAddU32(c: nat): (r: (nat, nat))
    requires c < U32Modulus
    ensures r.0 == c && r.1 < U32Modulus
    ensures r.1 == c + 1 || (c == U32Modulus - 1 && r.1 == 0)
  {
    (c, (c + 1) % U32Modulus)
  }

  /** The 32-bit counter after `n` allocations, starting from its initial value 1. */
  function CounterU32After(n: nat): (c: nat)
    ensures c < U32Modulus
  {
    if n == 0 then 1 else FetchAddU32(CounterU32After(n - 1)).1
  }

  /** The label the allocation numbered `n` (from 0) receives under 32-bit arithmetic. */
  function LabelU32(n: nat): (l: string) {
    Label(FetchAddU32(CounterU32After(n)).0)
  }

  lemma {:induction false} CounterU32AfterClosedForm(n: nat)
    ensures CounterU32After(n) == (n + 1) % U32Modulus
  {
    if n > 0 {
      CounterU32AfterClosedForm(n - 1);
    }
  }

  /** Under the source's 32-bit counter, allocation `n` and the allocation 2^32 calls later
      receive the same label: labels are reused once the counter wraps. */
  lemma WrappedCounterRepeatsLabel(n: nat)
    ensures LabelU32(n) == LabelU32(n + U32Modulus)
  {
    CounterU32AfterClosedForm(n);
    CounterU32AfterClosedForm(n + U32Modulus);
    WrapPeriod(n + 1);
  }

  lemma WrapPeriod(a: nat)
    ensures (a + U32Modulus) % U32Modulus == a % U32Modulus
  {
    var q, r := a / U32Modulus, a % U32Modulus;
    assert a + U32Modulus == (q + 1) * U32Modulus + r;
  }
}
