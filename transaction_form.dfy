/**
 * The posting-list editor and balance check of the transaction form
 * (web/src/features/transactions/TransactionForm.tsx).
 */
module TransactionForms {
  import opened Types
  import opened Amounts

  /** The blank posting the form creates: no account code and no amount. */
  function EmptyPosting(direction: PostingDirection): PostingInput
  {
    PostingInput("", direction, "")
  }

  /** The two postings a fresh or reset form holds: a debit, then a credit. */
  function InitialPostings(): (ps: seq<PostingInput>)
    ensures |ps| == 2
    ensures ps[0].direction == Debit && ps[1].direction == Credit
    ensures forall k | 0 <= k < 2 :: ps[k].accountCode == "" && ps[k].amount == ""
  {
    [EmptyPosting(Debit), EmptyPosting(Credit)]
  }

  /** `postings.filter((_, i) => i !== index)`, written as the element-by-element scan `filter` performs. */
  function FilterOutIndex<T>(s: seq<T>, index: int): seq<T>
    decreases |s|
  {
    if s == [] then []
    else
      var rest := FilterOutIndex(s[..|s| - 1], index);
      if |s| - 1 == index then rest else rest + [s[|s| - 1]]
  }

  /** Filtering drops exactly the element at `index`, when there is one, and keeps the order of the rest. */
  lemma {:induction false} FilterOutIndexRemoves<T>(s: seq<T>, index: int)
    ensures FilterOutIndex(s, index) == if 0 <= index < |s| then s[..index] + s[index + 1..] else s
  {
    if s != [] {
      var init := s[..|s| - 1];
      FilterOutIndexRemoves(init, index);
      if |s| - 1 == index {
        assert init == s[..index] + s[index + 1..];
      } else if 0 <= index < |s| - 1 {
        assert init[..index] + init[index + 1..] + [s[|s| - 1]] == s[..index] + s[index + 1..];
      } else {
        assert init + [s[|s| - 1]] == s;
      }
    }
  }

  /** The names of `PostingInput`'s fields (`keyof PostingInput`). */
  datatype PostingField = AccountCodeField | DirectionField | AmountField

  /**
   * The direction a selected option value stands for. The select offers only
   * "debit" and "credit"; the totals read every value other than "debit" as a credit.
   */
  function DirectionOf(value: string): (d: PostingDirection)
    ensures d == Debit <==> value == "debit"
  {
    if value == "debit" then Debit else Credit
  }

  /** `{ ...p, [field]: value }`. */
  function WithField(p: PostingInput, field: PostingField, value: string): (q: PostingInput)
    ensures q.accountCode == if field == AccountCodeField then value else p.accountCode
    ensures q.direction == if field == DirectionField then DirectionOf(value) else p.direction
    ensures q.amount == if field == AmountField then value else p.amount
  {
    match field
    case AccountCodeField => p.(accountCode := value)
    case DirectionField => p.(direction := DirectionOf(value))
    case AmountField => p.(amount := value)
  }

  /** The number a posting contributes: `parseFloat(p.amount || "0")`. */
  function AmountOf(p: PostingInput): (n: Number)
    ensures n.Finite? <==> p.amount == "" || MatchesAmountPattern(p.amount)
    ensures p.amount == "" ==> n == Finite(0.0)
  {
    ParseAmount(OrZero(p.amount))
  }

  /**
   * The running total of the postings with direction `side` (sums start at 0
   * and add one posting at a time, in list order).
   */
  function SideTotal(ps: seq<PostingInput>, side: PostingDirection): (t: Number)
    ensures t.Finite? ==> t.value >= 0.0
    decreases |ps|
  {
    if ps == [] then Finite(0.0)
    else
      var rest := SideTotal(ps[..|ps| - 1], side);
      if ps[|ps| - 1].direction == side then Add(rest, AmountOf(ps[|ps| - 1])) else rest
  }

  /** `Math.abs(debits - credits) < 0.01`; false whenever either side is `NaN`. */
  predicate IsBalanced(debits: Number, credits: Number)
    ensures debits.Finite? && debits == credits ==> IsBalanced(debits, credits)
    ensures debits.NaN? || credits.NaN? ==> !IsBalanced(debits, credits)
  {
    && debits.Finite? && credits.Finite?
    && -0.01 < debits.value - credits.value < 0.01
  }

  /** The balance test does not depend on which side is named first. */
  lemma BalanceSymmetric(debits: Number, credits: Number)
    ensures IsBalanced(debits, credits) <==> IsBalanced(credits, debits)
  {
  }

  /** Every amount is in the input pattern or empty. */
  predicate AmountsWellFormed(ps: seq<PostingInput>)
  {
    forall k | 0 <= k < |ps| :: ps[k].amount == "" || MatchesAmountPattern(ps[k].amount)
  }

  /** With well-formed amounts a total is a number, never below zero. */
  lemma {:induction false} SideTotalFinite(ps: seq<PostingInput>, side: PostingDirection)
    requires AmountsWellFormed(ps)
    ensures SideTotal(ps, side).Finite? && SideTotal(ps, side).value >= 0.0
  {
    if ps != [] {
      assert AmountsWellFormed(ps[..|ps| - 1]) by {
        forall k | 0 <= k < |ps| - 1 ensures ps[..|ps| - 1][k] == ps[k] { }
      }
      SideTotalFinite(ps[..|ps| - 1], side);
    }
  }

  /** One amount outside the pattern turns its side's total into `NaN`, and the form is then unbalanced. */
  lemma {:induction false} SideTotalNaN(ps: seq<PostingInput>, i: nat)
    requires i < |ps| && AmountOf(ps[i]) == NaN
    ensures SideTotal(ps, ps[i].direction) == NaN
    ensures !IsBalanced(SideTotal(ps, Debit), SideTotal(ps, Credit))
  {
    if i < |ps| - 1 {
      assert ps[..|ps| - 1][i] == ps[i];
      SideTotalNaN(ps[..|ps| - 1], i);
    }
  }

  /** Adding one posting at the end adds its amount to its own side only. */
  lemma SideTotalAppend(ps: seq<PostingInput>, p: PostingInput, side: PostingDirection)
    ensures SideTotal(ps + [p], side)
         == if p.direction == side then Add(SideTotal(ps, side), AmountOf(p)) else SideTotal(ps, side)
  {
    assert (ps + [p])[..|ps|] == ps;
  }

  /** An empty amount counts as 0. */
  lemma EmptyAmountIsZero(direction: PostingDirection)
    ensures AmountOf(EmptyPosting(direction)) == Finite(0.0)
  {
    assert OrZero("") == "0";
  }

  /** A blank posting adds nothing to either side. */
  lemma AppendEmptyKeepsTotals(ps: seq<PostingInput>, direction: PostingDirection, side: PostingDirection)
    ensures SideTotal(ps + [EmptyPosting(direction)], side) == SideTotal(ps, side)
  {
    SideTotalAppend(ps, EmptyPosting(direction), side);
    EmptyAmountIsZero(direction);
  }

  /** The fresh form sums to zero on both sides and so is balanced. */
  lemma InitialTotals()
    ensures SideTotal(InitialPostings(), Debit) == Finite(0.0)
    ensures SideTotal(InitialPostings(), Credit) == Finite(0.0)
    ensures IsBalanced(SideTotal(InitialPostings(), Debit), SideTotal(InitialPostings(), Credit))
  {
    InitialSideTotal(Debit);
    InitialSideTotal(Credit);
  }

  lemma BlankDebitTotal(side: PostingDirection)
    ensures SideTotal([EmptyPosting(Debit)], side) == Finite(0.0)
  {
    assert [EmptyPosting(Debit)] == [] + [EmptyPosting(Debit)];
    AppendEmptyKeepsTotals([], Debit, side);
  }

  lemma InitialSideTotal(side: PostingDirection)
    ensures SideTotal(InitialPostings(), side) == Finite(0.0)
  {
    assert InitialPostings() == [EmptyPosting(Debit)] + [EmptyPosting(Credit)];
    BlankDebitTotal(side);
    AppendEmptyKeepsTotals([EmptyPosting(Debit)], Credit, side);
  }

  /** The totals of a two-posting list. */
  lemma PairTotal(d: PostingInput, c: PostingInput, side: PostingDirection)
    ensures SideTotal([d, c], side)
         == Add(Add(Finite(0.0), if d.direction == side then AmountOf(d) else Finite(0.0)),
                if c.direction == side then AmountOf(c) else Finite(0.0))
  {
    assert [d, c] == [d] + [c];
    assert [d] == [] + [d];
    SideTotalAppend([], d, side);
    SideTotalAppend([d], c, side);
  }

  /**
   * The tolerance of the balance test admits totals that differ by less than
   * a cent, although amounts may carry ten decimal places.
   */
  lemma ToleranceAdmitsUnequalTotals()
    ensures var ps := [PostingInput("1000", Debit, "1.005"), PostingInput("2000", Credit, "1")];
      && SideTotal(ps, Debit) == Finite(1.005) && SideTotal(ps, Credit) == Finite(1.0)
      && IsBalanced(SideTotal(ps, Debit), SideTotal(ps, Credit))
  {
    var d, c := PostingInput("1000", Debit, "1.005"), PostingInput("2000", Credit, "1");
    ParseAmountFractionExample();
    assert AmountOf(d) == Finite(1.005);
    assert AmountOf(c) == Finite(1.0);
    PairTotal(d, c, Debit);
    PairTotal(d, c, Credit);
  }

  /** Editing an account code leaves both totals as they were. */
  lemma {:induction false} AccountCodeEditKeepsTotals(ps: seq<PostingInput>, i: nat, code: string, side: PostingDirection)
    requires i < |ps|
    ensures SideTotal(ps[i := WithField(ps[i], AccountCodeField, code)], side) == SideTotal(ps, side)
  {
    var qs := ps[i := WithField(ps[i], AccountCodeField, code)];
    if i < |ps| - 1 {
      assert qs[..|qs| - 1] == ps[..|ps| - 1][i := WithField(ps[i], AccountCodeField, code)];
      AccountCodeEditKeepsTotals(ps[..|ps| - 1], i, code, side);
    } else {
      assert qs[..|qs| - 1] == ps[..|ps| - 1];
    }
  }

  /** The transaction form's state: its metadata fields and the posting list. */
  class TransactionForm {
    var externalId: string
    var currency: string
    var occurredAt: string
    var postings: seq<PostingInput>

    /** The form never holds fewer than two postings. */
    ghost predicate Valid()
      reads this
    {
      |postings| >= 2
    }

    /** A fresh form; `now` is the current time in the `datetime-local` format. */
    constructor (now: string)
      ensures Valid()
      ensures externalId == "" && currency == "USD" && occurredAt == now
      ensures postings == InitialPostings()
    {
      externalId := "";
      currency := "USD";
      occurredAt := now;
      postings := InitialPostings();
    }

    /** `addPosting`: appends a blank debit. */
    method AddPosting()
      requires Valid()
      modifies this`postings
      ensures Valid()
      ensures postings == old(postings) + [EmptyPosting(Debit)]
    {
      postings := postings + [EmptyPosting(Debit)];
    }

    /** `removePosting(index)`: only while more than two postings remain. */
    method RemovePosting(index: int)
      requires Valid()
      modifies this`postings
      ensures Valid()
      ensures |old(postings)| <= 2 ==> postings == old(postings)
      ensures |old(postings)| > 2 ==> postings == FilterOutIndex(old(postings), index)
      ensures |old(postings)| > 2 && 0 <= index < |old(postings)| ==>
                postings == old(postings)[..index] + old(postings)[index + 1..]
      ensures !(0 <= index < |old(postings)|) ==> postings == old(postings)
    {
      FilterOutIndexRemoves(postings, index);
      if |postings| > 2 {
        postings := FilterOutIndex(postings, index);
      }
    }

    /** `updatePosting(index, field, value)`: replaces one field of one posting. */
    method UpdatePosting(index: nat, field: PostingField, value: string)
      requires Valid() && index < |postings|
      modifies this`postings
      ensures Valid()
      ensures postings == old(postings)[index := WithField(old(postings)[index], field, value)]
    {
      var updated := postings;
      updated := updated[index := WithField(updated[index], field, value)];
      postings := updated;
    }

    /** `calculateTotals`: one pass over the postings accumulating both sides. */
    method CalculateTotals() returns (debits: Number, credits: Number, balanced: bool)
      ensures debits == SideTotal(postings, Debit)
      ensures credits == SideTotal(postings, Credit)
      ensures balanced <==> IsBalanced(debits, credits)
    {
      debits, credits := Finite(0.0), Finite(0.0);
      var i := 0;
      while i < |postings|
        invariant 0 <= i <= |postings|
        invariant debits == SideTotal(postings[..i], Debit)
        invariant credits == SideTotal(postings[..i], Credit)
      {
        var p := postings[i];
        assert postings[..i + 1] == postings[..i] + [p];
        SideTotalAppend(postings[..i], p, Debit);
        SideTotalAppend(postings[..i], p, Credit);
        var amount := AmountOf(p);
        if p.direction == Debit {
          debits := Add(debits, amount);
        } else {
          credits := Add(credits, amount);
        }
        i := i + 1;
      }
      assert postings[..i] == postings;
      balanced := IsBalanced(debits, credits);
    }

    /** The submit button's rule: enabled when balanced and at least two postings are listed. */
    method SubmitEnabled() returns (enabled: bool)
      ensures enabled <==>
        IsBalanced(SideTotal(postings, Debit), SideTotal(postings, Credit)) && |postings| >= 2
      ensures Valid() ==> (enabled <==> IsBalanced(SideTotal(postings, Debit), SideTotal(postings, Credit)))
    {
      var _, _, balanced := CalculateTotals();
      enabled := balanced && |postings| >= 2;
    }

    /** The reset after a successful post: metadata other than the external id stays. */
    method ResetAfterPost()
      modifies this`externalId, this`postings
      ensures Valid()
      ensures externalId == "" && postings == InitialPostings()
      ensures currency == old(currency) && occurredAt == old(occurredAt)
    {
      externalId := "";
      postings := InitialPostings();
    }
  }
}
