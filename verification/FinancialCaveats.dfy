/**
 * The financial caveat evaluator (packages/trust/src/financial-caveats.ts:43-335), which must not
 * pass a caveat it does not understand or does not find met.
 */
module FinancialCaveats {
  import opened Common
  import opened Jcs
  import opened Grants
  import opened Resolver
  import opened Refinement
  import opened Attenuation
  import opened DecimalAmounts

  const MAX_AMOUNT: Text := Ascii("maxAmount")
  const CURRENCY: Text := Ascii("currency")
  const BENEFICIARY: Text := Ascii("beneficiary")
  const ACTION_ID: Text := Ascii("actionId")
  const APPROVAL_TIER: Text := Ascii("approvalTier")

  // -------- The evaluator --------

  /** What the relying party says the request does; a tier that is no integer is as good as none. */
  datatype Action = Action(
    amount: Option<Text>,
    currency: Option<Text>,
    beneficiary: Option<Text>,
    actionId: Option<Text>,
    approvalTier: Option<int>)

  predicate IsUpper(c: CodeUnit) {
    0x41 <= c <= 0x5A
  }

  predicate IsCurrency(t: Text) {
    3 <= |t| <= 8 && IsUpper(t[0]) && forall i :: 1 <= i < |t| ==> IsUpper(t[i]) || IsDigit(t[i])
  }

  predicate IsTier(n: int) {
    0 <= n <= 100
  }

  predicate Has(caveats: seq<Member>, key: Text) {
    exists m :: m in caveats && m.name == key
  }

  /** The value under a key; `Undefined` where there is none. */
  function Get(caveats: seq<Member>, key: Text): Value {
    if caveats == [] then Undefined
    else if caveats[0].name == key then caveats[0].value
    else Get(caveats[1..], key)
  }

  /** The payees a beneficiary caveat admits; None where it is malformed. */
  function Payees(v: Value): Option<seq<Text>> {
    match v
    case Str(s) => if s == [] then None else Some([s])
    case Arr(items) =>
      if items == [] || exists i :: 0 <= i < |items| && !(items[i].Str? && items[i].s != []) then None
      else Some(seq(|items|, i requires 0 <= i < |items| && items[i].Str? => items[i].s))
    case _ => None
  }

  predicate AdmittedKey(key: Text) {
    key in [MAX_AMOUNT, CURRENCY, BENEFICIARY, ACTION_ID, APPROVAL_TIER, AUD]
  }

  predicate CurrencyMet(caveat: Value, action: Action) {
    caveat.Str? && IsCurrency(caveat.s) && action.currency == Some(caveat.s)
  }

  /** `evaluateFinancialCaveats`; None is a caveats value that is no plain map. */
  predicate Evaluate(caveats: Option<seq<Member>>, action: Action) {
    match caveats
    case None => false
    case Some(ms) =>
      if exists i :: 0 <= i < |ms| && !AdmittedKey(ms[i].name) then false
      else if Has(ms, MAX_AMOUNT) && !AmountMet(ms, action) then false
      else if Has(ms, CURRENCY) && !CurrencyMet(Get(ms, CURRENCY), action) then false
      else if Has(ms, BENEFICIARY) && !BeneficiaryMet(Get(ms, BENEFICIARY), action) then false
      else if Has(ms, ACTION_ID) && !ActionIdMet(Get(ms, ACTION_ID), action) then false
      else if Has(ms, APPROVAL_TIER) && !TierMet(Get(ms, APPROVAL_TIER), action) then false
      else true
  }

  /** The cap's branch: a cap needs its currency, and the action must state both. */
  predicate AmountMet(ms: seq<Member>, action: Action) {
    var cap := Get(ms, MAX_AMOUNT);
    && cap.Str? && IsAmount(cap.s)
    && Has(ms, CURRENCY) && CurrencyMet(Get(ms, CURRENCY), action)
    && action.amount.Some? && IsAmount(action.amount.value)
    && AmountAtMost(action.amount.value, cap.s)
  }

  predicate BeneficiaryMet(caveat: Value, action: Action) {
    && Payees(caveat).Some? && action.beneficiary.Some? && action.beneficiary.value != []
    && action.beneficiary.value in Payees(caveat).value
  }

  predicate ActionIdMet(caveat: Value, action: Action) {
    caveat.Str? && caveat.s != [] && action.actionId == Some(caveat.s)
  }

  predicate TierMet(caveat: Value, action: Action) {
    caveat.Num? && IsTier(caveat.n) && action.approvalTier.Some? && IsTier(action.approvalTier.value)
      && caveat.n <= action.approvalTier.value
  }

  // -------- What an approval means, caveat by caveat --------

  const LETTERS: Text := Ascii("ABCDEFGHIJKLMNOPQRSTUVWXYZ")
  const LETTERS_AND_DIGITS: Text := Ascii("ABCDEFGHIJKLMNOPQRSTUVWXYZ0123456789")

  /** A to Z, and digits after the first letter: three to eight of them. */
  ghost predicate CurrencyCode(t: Text) {
    && 3 <= |t| <= 8 && t[0] in LETTERS
    && forall c :: c in t ==> c in LETTERS_AND_DIGITS
  }

  ghost predicate NamesPayee(caveat: Value, payee: Text) {
    || caveat == Str(payee)
    || (caveat.Arr? && Str(payee) in caveat.items && forall item :: item in caveat.items ==>
      item.Str? && item != Str([]))
  }

  /** One caveat, read on its own: what it constrains and how, amounts as numbers. */
  ghost predicate Met(m: Member, ms: seq<Member>, action: Action) {
    if m.name == MAX_AMOUNT then
      && m.value.Str? && action.amount.Some? && AtMost(action.amount.value, m.value.s)
      && exists c :: c in ms && c.name == CURRENCY
    else if m.name == CURRENCY then
      action.currency.Some? && CurrencyCode(action.currency.value) && m.value == Str(action.currency.value)
    else if m.name == BENEFICIARY then
      action.beneficiary.Some? && action.beneficiary.value != [] && NamesPayee(m.value, action.beneficiary.value)
    else if m.name == ACTION_ID then
      action.actionId.Some? && action.actionId.value != [] && m.value == Str(action.actionId.value)
    else if m.name == APPROVAL_TIER then
      m.value.Num? && action.approvalTier.Some? && 0 <= m.value.n <= action.approvalTier.value <= 100
    else m.name == AUD
  }

  lemma {:induction false} GetIsTheMember(ms: seq<Member>, m: Member)
    requires m in ms && forall a, b :: a in ms && b in ms && a.name == b.name ==> a == b
    ensures Get(ms, m.name) == m.value
  {
    if ms[0] != m {
      assert ms[0] in ms;
      assert m in ms[1..];
      GetIsTheMember(ms[1..], m);
    }
  }

  /**
   * The evaluator approves exactly when every caveat is one it understands and is met: it neither
   * lets an unknown one past nor depends on the order they are written in.
   */
  lemma {:induction false} ApprovesIffEveryCaveatMet(ms: seq<Member>, action: Action)
    requires forall a, b :: a in ms && b in ms && a.name == b.name ==> a == b
    ensures Evaluate(Some(ms), action) <==> forall m :: m in ms ==> Met(m, ms, action)
  {
    forall m | m in ms ensures Get(ms, m.name) == m.value {
      GetIsTheMember(ms, m);
    }
    if Evaluate(Some(ms), action) {
      forall m | m in ms ensures Met(m, ms, action) {
        ApprovedIsMet(ms, action, m);
      }
    }
    if forall m :: m in ms ==> Met(m, ms, action) {
      MetIsApproved(ms, action);
    }
  }

  lemma {:induction false} LettersInOrder(i: nat)
    requires i < 36
    ensures LETTERS_AND_DIGITS[i] == if i < 26 then 0x41 + i else ZERO + (i - 26)
    ensures i < 26 ==> LETTERS[i] == 0x41 + i
  {}

  lemma {:induction false} LettersOfCurrency(c: CodeUnit)
    ensures IsUpper(c) <==> c in LETTERS
    ensures IsUpper(c) || IsDigit(c) <==> c in LETTERS_AND_DIGITS
  {
    if IsUpper(c) { LettersInOrder(c - 0x41); }
    if IsDigit(c) { LettersInOrder(26 + (c - ZERO)); }
    if c in LETTERS {
      var i :| 0 <= i < |LETTERS| && LETTERS[i] == c;
      LettersInOrder(i);
    }
    if c in LETTERS_AND_DIGITS {
      var i :| 0 <= i < |LETTERS_AND_DIGITS| && LETTERS_AND_DIGITS[i] == c;
      LettersInOrder(i);
    }
  }

  lemma {:induction false} CurrencyIff(t: Text)
    ensures IsCurrency(t) <==> CurrencyCode(t)
  {
    forall c: CodeUnit
      ensures IsUpper(c) <==> c in LETTERS
      ensures IsUpper(c) || IsDigit(c) <==> c in LETTERS_AND_DIGITS {
      LettersOfCurrency(c);
    }
    if CurrencyCode(t) {
      forall i | 1 <= i < |t| ensures IsUpper(t[i]) || IsDigit(t[i]) {
        assert t[i] in t;
      }
    }
  }

  lemma {:induction false} PayeeIff(caveat: Value, action: Action)
    ensures BeneficiaryMet(caveat, action) <==>
      action.beneficiary.Some? && action.beneficiary.value != [] && NamesPayee(caveat, action.beneficiary.value)
  {
    if caveat.Arr? && Payees(caveat).Some? {
      var payees := Payees(caveat).value;
      assert |payees| == |caveat.items| && forall i :: 0 <= i < |payees| ==> caveat.items[i] == Str(payees[i]);
    }
  }

  lemma {:induction false} ApprovedIsMet(ms: seq<Member>, action: Action, m: Member)
    requires Evaluate(Some(ms), action) && m in ms && Get(ms, m.name) == m.value
    ensures Met(m, ms, action)
  {
    var i :| 0 <= i < |ms| && ms[i] == m;
    assert AdmittedKey(ms[i].name);
    assert Has(ms, m.name);
    if m.name == MAX_AMOUNT {
      AtMostIff(action.amount.value, m.value.s);
    } else if m.name == CURRENCY {
      CurrencyIff(m.value.s);
    } else if m.name == BENEFICIARY {
      PayeeIff(m.value, action);
    }
  }

  lemma {:induction false} KeyIsMet(ms: seq<Member>, action: Action, key: Text)
    requires forall m :: m in ms ==> Met(m, ms, action) && Get(ms, m.name) == m.value
    ensures Has(ms, key) ==> Met(Member(key, Get(ms, key)), ms, action)
  {
    if Has(ms, key) {
      var m :| m in ms && m.name == key;
      assert m == Member(key, Get(ms, key));
    }
  }

  lemma {:induction false} CurrencyIsMet(ms: seq<Member>, action: Action)
    requires forall m :: m in ms ==> Met(m, ms, action) && Get(ms, m.name) == m.value
    ensures Has(ms, CURRENCY) ==> CurrencyMet(Get(ms, CURRENCY), action)
  {
    KeyIsMet(ms, action, CURRENCY);
    if Has(ms, CURRENCY) {
      CurrencyIff(Get(ms, CURRENCY).s);
    }
  }

  lemma {:induction false} CapIsMet(ms: seq<Member>, action: Action)
    requires forall m :: m in ms ==> Met(m, ms, action) && Get(ms, m.name) == m.value
    ensures Has(ms, MAX_AMOUNT) ==> AmountMet(ms, action)
  {
    KeyIsMet(ms, action, MAX_AMOUNT);
    CurrencyIsMet(ms, action);
    if Has(ms, MAX_AMOUNT) {
      AtMostIff(action.amount.value, Get(ms, MAX_AMOUNT).s);
    }
  }

  lemma {:induction false} BeneficiaryIsMet(ms: seq<Member>, action: Action)
    requires forall m :: m in ms ==> Met(m, ms, action) && Get(ms, m.name) == m.value
    ensures Has(ms, BENEFICIARY) ==> BeneficiaryMet(Get(ms, BENEFICIARY), action)
  {
    KeyIsMet(ms, action, BENEFICIARY);
    PayeeIff(Get(ms, BENEFICIARY), action);
  }

  lemma {:induction false} MetKeysAdmitted(ms: seq<Member>, action: Action)
    requires forall m :: m in ms ==> Met(m, ms, action)
    ensures forall i :: 0 <= i < |ms| ==> AdmittedKey(ms[i].name)
  {
    forall i | 0 <= i < |ms| ensures AdmittedKey(ms[i].name) {
      assert ms[i] in ms;
    }
  }

  lemma {:induction false} MetIsApproved(ms: seq<Member>, action: Action)
    requires forall m :: m in ms ==> Met(m, ms, action) && Get(ms, m.name) == m.value
    ensures Evaluate(Some(ms), action)
  {
    assert ACTION_ID[0] != CURRENCY[0];
    MetKeysAdmitted(ms, action);
    CapIsMet(ms, action);
    CurrencyIsMet(ms, action);
    BeneficiaryIsMet(ms, action);
    KeyIsMet(ms, action, ACTION_ID);
    KeyIsMet(ms, action, APPROVAL_TIER);
  }

  // -------- Along a chain --------

  /** The evaluator handed to the resolver for one action. */
  function EvaluatorFor(action: Action): Grant -> bool {
    (g: Grant) => Evaluate(Some(CaveatsOf(g)), action)
  }

  ghost predicate KeyedOnce(ms: seq<Member>) {
    forall a, b :: a in ms && b in ms && a.name == b.name ==> a == b
  }

  lemma {:induction false} ValidLinkApproves(env: Env, o: Options, chain: seq<Grant>, fuel: Fuel, memo: Memo,
      action: Action, i: nat)
    requires MemoSound(env, memo) && VerifyStep(env, o, chain, fuel, memo).answer.Valid?
    requires o.purpose != Evidence && o.evaluateCaveats == Some(EvaluatorFor(action))
    requires i < |chain| && chain[i].foreignCaveats != []
    ensures Evaluate(Some(CaveatsOf(chain[i])), action)
  {
    MeteredRunRefinesIdeal(env, o, chain, fuel, memo);
    ValidIffAuthorized(env, o, chain);
    assert LinkAuthorized(env, o, chain, i);
  }

  /**
   * Behind a valid verdict, every spending cap anywhere on the chain is at least the action's
   * amount, in the cap's own currency, as exact decimals.
   */
  lemma {:induction false} ValidChainIsWithinEveryCap(env: Env, o: Options, chain: seq<Grant>, fuel: Fuel, memo: Memo,
      action: Action, i: nat, cap: Member)
    requires MemoSound(env, memo) && VerifyStep(env, o, chain, fuel, memo).answer.Valid?
    requires o.purpose != Evidence && o.evaluateCaveats == Some(EvaluatorFor(action))
    requires i < |chain| && KeyedOnce(CaveatsOf(chain[i])) && cap in chain[i].foreignCaveats && cap.name == MAX_AMOUNT
    ensures action.amount.Some? && cap.value.Str? && AtMost(action.amount.value, cap.value.s)
    ensures action.currency.Some? && Member(CURRENCY, Str(action.currency.value)) in CaveatsOf(chain[i])
  {
    var ms := CaveatsOf(chain[i]);
    ValidLinkApproves(env, o, chain, fuel, memo, action, i);
    GetIsTheMember(ms, cap);
    ApprovedIsMet(ms, action, cap);
    var c :| c in ms && c.name == CURRENCY;
    GetIsTheMember(ms, c);
    ApprovedIsMet(ms, action, c);
  }
}
