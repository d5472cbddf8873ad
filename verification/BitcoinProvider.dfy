/** UTXO selection and the change arithmetic of a Bitcoin payment, on wrapping 64-bit satoshi amounts. */
module BitcoinProvider {
  import opened Common

  datatype UTXO = UTXO(txHash: string, outputIdx: nat, value: uint64, scriptPubKey: string)

  datatype Selection = Insufficient | Selected(utxos: seq<UTXO>, total: uint64)

  const FEE: int := 10000

  /** The true, unbounded value of a list of outputs. */
  function Total(us: seq<UTXO>): nat {
    if us == [] then 0 else Total(us[..|us| - 1]) + us[|us| - 1].value
  }

  lemma TotalExtend(us: seq<UTXO>, k: nat)
    requires k < |us|
    ensures Total(us[..k + 1]) == Total(us[..k]) + us[k].value
  {
    assert us[..k + 1][..k] == us[..k];
  }

  lemma {:induction false} TotalMonotone(us: seq<UTXO>, j: nat, k: nat)
    requires j <= k <= |us|
    ensures Total(us[..j]) <= Total(us[..k])
    decreases k
  {
    if j < k {
      TotalExtend(us, k - 1);
      TotalMonotone(us, j, k - 1);
    }
  }

  /** What a 64-bit accumulator holds after the first k outputs. */
  function WrappedTotal(us: seq<UTXO>, k: nat): uint64
    requires k <= |us|
  {
    Total(us[..k]) % TWO_64
  }

  lemma AddWraps(t: nat, v: uint64)
    ensures AddU64(t % TWO_64, v) == (t + v) % TWO_64
  {
  }

  lemma WrappedStep(us: seq<UTXO>, k: nat)
    requires k < |us|
    ensures AddU64(WrappedTotal(us, k), us[k].value) == WrappedTotal(us, k + 1)
  {
    TotalExtend(us, k);
    AddWraps(Total(us[..k]), us[k].value);
  }

  /** The loop stops at the first non-empty prefix whose accumulator covers the requirement. */
  ghost predicate IsSelection(us: seq<UTXO>, required: uint64, r: Selection) {
    match r
    case Insufficient =>
      0 < required && forall j :: 1 <= j <= |us| ==> WrappedTotal(us, j) < required
    case Selected(chosen, total) =>
      var k := |chosen|;
      && chosen <= us
      && (k == 0 ==> us == [] && required == 0)
      && total == WrappedTotal(us, k)
      && required <= total
      && forall j :: 1 <= j < k ==> WrappedTotal(us, j) < required
  }

  method SelectUTXOs(utxos: seq<UTXO>, required: uint64) returns (r: Selection)
    ensures IsSelection(utxos, required, r)
  {
    var selected: seq<UTXO> := [];
    var total: uint64 := 0;
    var i := 0;
    while i < |utxos|
      invariant i <= |utxos| && selected == utxos[..i]
      invariant total == WrappedTotal(utxos, i)
      invariant forall j :: 1 <= j <= i ==> WrappedTotal(utxos, j) < required
    {
      WrappedStep(utxos, i);
      selected := selected + [utxos[i]];
      total := AddU64(total, utxos[i].value);
      i := i + 1;
      assert selected == utxos[..i];
      if total >= required {
        break;
      }
    }
    if total < required {
      return Insufficient;
    }
    return Selected(selected, total);
  }

  /** The first k outputs reach the requirement and no shorter prefix does. */
  ghost predicate ShortestReaching(us: seq<UTXO>, required: int, k: nat) {
    && k <= |us|
    && required <= Total(us[..k])
    && forall j :: 0 <= j < k ==> Total(us[..j]) < required
  }

  lemma SmallIsItself(t: nat)
    requires t < TWO_64
    ensures t % TWO_64 == t
  {
  }

  lemma NothingWraps(us: seq<UTXO>, k: nat)
    requires k <= |us| && Total(us) < TWO_64
    ensures WrappedTotal(us, k) == Total(us[..k])
  {
    assert us[..|us|] == us;
    TotalMonotone(us, k, |us|);
    SmallIsItself(Total(us[..k]));
  }

  /** When everything together is too little, selection fails; it never wraps into a wrong success. */
  lemma FailsWhenFundsAreShort(us: seq<UTXO>, required: uint64, r: Selection)
    requires IsSelection(us, required, r)
    requires Total(us) < required
    ensures r == Insufficient
  {
    if r.Selected? {
      NothingWraps(us, |r.utxos|);
      assert us[..|us|] == us;
      TotalMonotone(us, |r.utxos|, |us|);
    }
  }

  /**
   * With enough funds and a positive requirement, the answer is the shortest sufficient prefix and its
   * exact value if and only if that prefix's value fits in 64 bits.
   */
  lemma SelectsShortestPrefixIffItFits(us: seq<UTXO>, required: uint64, k: nat, r: Selection)
    requires 0 < required
    requires IsSelection(us, required, r)
    requires ShortestReaching(us, required, k)
    ensures r == Selected(us[..k], Total(us[..k]) % TWO_64) && r.total == Total(us[..k]) <==> Total(us[..k]) < TWO_64
  {
    assert us[..0] == [];
    assert 0 < k;
    forall j | 1 <= j < k ensures WrappedTotal(us, j) < required {
      assert Total(us[..j]) < required;
    }
    if Total(us[..k]) < TWO_64 {
      assert WrappedTotal(us, k) == Total(us[..k]);
      assert r.Selected?;
      assert us[..|r.utxos|] == r.utxos;
      assert |r.utxos| >= k;
    }
  }

  /** When all the funds together fit in 64 bits, selection fails exactly when they fall short. */
  lemma FailsIffFundsAreShort(us: seq<UTXO>, required: uint64, r: Selection)
    requires IsSelection(us, required, r)
    requires Total(us) < TWO_64
    ensures r == Insufficient <==> Total(us) < required
  {
    assert us[..|us|] == us;
    assert WrappedTotal(us, |us|) == Total(us);
    if Total(us) < required {
      FailsWhenFundsAreShort(us, required, r);
    }
  }

  datatype Payment = Rejected | Prepared(inputs: seq<UTXO>, change: uint64)

  method CreateTransaction(utxos: seq<UTXO>, satNeeded: uint64) returns (p: Payment)
    ensures IsPayment(utxos, satNeeded, p)
  {
    var s := SelectUTXOs(utxos, AddU64(satNeeded, FEE));
    match s {
      case Insufficient =>
        p := Rejected;
      case Selected(chosen, total) =>
        p := Prepared(chosen, SubU64(SubU64(total, satNeeded), FEE));
        assert IsSelection(utxos, AddU64(satNeeded, FEE), Selected(p.inputs, total));
    }
  }

  ghost predicate IsPayment(us: seq<UTXO>, satNeeded: uint64, p: Payment) {
    match p
    case Rejected => IsSelection(us, AddU64(satNeeded, FEE), Insufficient)
    case Prepared(inputs, change) =>
      exists total: uint64 :: IsSelection(us, AddU64(satNeeded, FEE), Selected(inputs, total))
                              && change == SubU64(SubU64(total, satNeeded), FEE)
  }

  /** Funds that fit in 64 bits: the reported total is exact, and without its last output it falls short. */
  lemma SelectionIsTight(us: seq<UTXO>, required: uint64, chosen: seq<UTXO>, total: uint64)
    requires IsSelection(us, required, Selected(chosen, total))
    requires Total(us) < TWO_64
    ensures Total(chosen) == total
    ensures 0 < required ==> chosen != [] && total - chosen[|chosen| - 1].value < required
  {
    var k := |chosen|;
    assert us[..k] == chosen;
    NothingWraps(us, k);
    if 0 < required {
      assert 0 < k;
      NothingWraps(us, k - 1);
      TotalExtend(us, k - 1);
      assert us[..0] == [];
    }
  }

  lemma ChangeIsTotalMinusRequired(total: uint64, satNeeded: uint64)
    requires AddU64(satNeeded, FEE) <= total
    ensures SubU64(SubU64(total, satNeeded), FEE) == total - AddU64(satNeeded, FEE)
    ensures AddU64(satNeeded, FEE) == satNeeded + FEE - (if satNeeded + FEE < TWO_64 then 0 else TWO_64)
  {
  }

  /**
   * Conservation of satoshis. For funds that fit in 64 bits, inputs equal amount + fee + change
   * if and only if amount + fee did not wrap; then the change is less than the last input,
   * so no selected output was superfluous.
   */
  lemma PaymentConservesIffAmountFits(us: seq<UTXO>, satNeeded: uint64, p: Payment)
    requires IsPayment(us, satNeeded, p) && p.Prepared?
    requires Total(us) < TWO_64
    ensures Total(p.inputs) == satNeeded + FEE + p.change <==> satNeeded + FEE < TWO_64
    ensures satNeeded + FEE < TWO_64 ==> p.inputs != [] && p.change < p.inputs[|p.inputs| - 1].value
  {
    var total: uint64 :| IsSelection(us, AddU64(satNeeded, FEE), Selected(p.inputs, total))
                         && p.change == SubU64(SubU64(total, satNeeded), FEE);
    SelectionIsTight(us, AddU64(satNeeded, FEE), p.inputs, total);
    ChangeIsTotalMinusRequired(total, satNeeded);
  }

  /** Close to 2^64 the amount wraps together with the fee: a small output pays it, with change left over. */
  lemma WrappingPaymentExample()
    ensures var (us, satNeeded) := ([UTXO("0xa", 0, 10000, "")], TWO_64 - 2048);
            IsPayment(us, satNeeded, Prepared(us, 2048)) && Total(us) < satNeeded
  {
    var (us, satNeeded) := ([UTXO("0xa", 0, 10000, "")], TWO_64 - 2048);
    assert us[..1] == us && us[..0] == [];
    assert Total(us[..0]) == 0;
    assert AddU64(satNeeded, FEE) == 7952;
    assert IsSelection(us, 7952, Selected(us, 10000));
    assert SubU64(SubU64(10000, satNeeded), FEE) == 2048;
  }
}
