/**
 * `top_five` (src/utils.py): the five records with the largest absolute
 * payment, each with its payment replaced by the absolute value. The JSON
 * text the source produces from them is not part of this model.
 */
module TopFive {
  import opened Wrappers
  import opened Records
  import opened Seqs

  /**
   * One row of `df` after `df['Сумма платежа'] = df['Сумма платежа'].abs()`.
   * In the DataFrame every row has the column: a record without the key
   * holds NaN there, and the absolute value of NaN is NaN.
   */
  function AbsPayment(x: Record): (r: Record)
    ensures r.(payment := x.payment) == x
    ensures r.payment.Sum? <==> x.payment.Sum?
    ensures r.payment.Sum? ==> r.payment.kopecks >= 0
    ensures r.payment.Sum? ==> r.payment.kopecks == x.payment.kopecks || r.payment.kopecks == -x.payment.kopecks
  {
    x.(payment := if x.payment.Sum? then Sum(Abs(x.payment.kopecks)) else NotANumber)
  }

  /** Taking the absolute value twice changes nothing more. */
  lemma AbsPaymentIdempotent(x: Record)
    ensures AbsPayment(AbsPayment(x)) == AbsPayment(x)
  {
  }

  /**
   * `a` may come before `b` under `sort_values(ascending=False)`: a larger
   * or equal payment first, and NaN (`na_position='last'`) after every number.
   */
  predicate RanksAbove(a: Record, b: Record) {
    b.payment.Sum? ==> a.payment.Sum? && a.payment.kopecks >= b.payment.kopecks
  }

  /** RanksAbove is a total preorder, so sorting by it is well defined up to ties. */
  lemma RanksAboveIsTotalPreorder(a: Record, b: Record, c: Record)
    ensures RanksAbove(a, a)
    ensures RanksAbove(a, b) || RanksAbove(b, a)
    ensures RanksAbove(a, b) && RanksAbove(b, c) ==> RanksAbove(a, c)
  {
  }

  /** A number always ranks above NaN and never below it. */
  lemma NaNRanksLast(a: Record, b: Record)
    requires a.payment.Sum? && !b.payment.Sum?
    ensures RanksAbove(a, b) && !RanksAbove(b, a)
  {
  }

  predicate SortedDescending(s: seq<Record>) {
    forall i, j | 0 <= i < j < |s| :: RanksAbove(s[i], s[j])
  }

  /** Places `x` before the first element it ranks above. */
  function Insert(x: Record, s: seq<Record>): (r: seq<Record>)
    ensures |r| == |s| + 1
    ensures multiset(r) == multiset(s) + multiset{x}
    decreases |s|
  {
    if s == [] then [x]
    else if RanksAbove(x, s[0]) then [x] + s
    else
      assert s == [s[0]] + s[1..];
      [s[0]] + Insert(x, s[1..])
  }

  lemma {:induction false} InsertSorted(x: Record, s: seq<Record>)
    requires SortedDescending(s)
    ensures SortedDescending(Insert(x, s))
    decreases |s|
  {
    if s != [] {
      if RanksAbove(x, s[0]) {
        forall j | 0 <= j < |s|
          ensures RanksAbove(x, s[j])
        {
          RanksAboveIsTotalPreorder(x, s[0], s[j]);
        }
      } else {
        var head, rest := s[0], Insert(x, s[1..]);
        InsertSorted(x, s[1..]);
        RanksAboveIsTotalPreorder(head, x, x);
        forall j | 0 <= j < |rest|
          ensures RanksAbove(head, rest[j])
        {
          assert rest[j] in multiset(s[1..]) + multiset{x};
          if rest[j] != x {
            var k :| 1 <= k < |s| && s[k] == rest[j];
          }
        }
      }
    }
  }

  /** Insertion sort: the model's concrete order for equal payments is stable. */
  function SortDescending(s: seq<Record>): (r: seq<Record>)
    ensures |r| == |s|
    ensures multiset(r) == multiset(s)
    decreases |s|
  {
    if s == [] then []
    else
      assert s == [s[0]] + s[1..];
      Insert(s[0], SortDescending(s[1..]))
  }

  lemma {:induction false} SortDescendingSorted(s: seq<Record>)
    ensures SortedDescending(SortDescending(s))
    decreases |s|
  {
    if s != [] {
      SortDescendingSorted(s[1..]);
      InsertSorted(s[0], SortDescending(s[1..]));
    }
  }

  /**
   * The first `k` elements of a sorted sequence are sorted, come from it,
   * and rank above everything left behind.
   */
  lemma PrefixOfSorted(s: seq<Record>, k: nat)
    requires SortedDescending(s) && k <= |s|
    ensures SortedDescending(s[..k])
    ensures multiset(s[..k]) <= multiset(s)
    ensures forall y | multiset(s[..k])[y] < multiset(s)[y] :: forall x | x in s[..k] :: RanksAbove(x, y)
  {
    assert s == s[..k] + s[k..];
    assert multiset(s) == multiset(s[..k]) + multiset(s[k..]);
    forall y | multiset(s[..k])[y] < multiset(s)[y]
      ensures forall x | x in s[..k] :: RanksAbove(x, y)
    {
      assert y in multiset(s[k..]);
      var j :| k <= j < |s| && s[j] == y;
      forall x | x in s[..k]
        ensures RanksAbove(x, y)
      {
        var i :| 0 <= i < k && s[i] == x;
      }
    }
  }

  /**
   * `df.sort_values(by='Сумма платежа', ascending=False).head()`. A frame
   * built from records none of which has the key has no such column, so
   * the first step raises KeyError; that includes the empty list.
   * Otherwise the result has min(5, n) rows; TopFiveRanks says which.
   */
  function TopFive(rows: seq<Record>): (r: Result<seq<Record>, Exception>)
    ensures r.Failure? <==> forall i | 0 <= i < |rows| :: rows[i].payment.Absent?
    ensures r.Failure? ==> r.error == KeyError
    ensures r.Success? ==> |r.value| == if |rows| < 5 then |rows| else 5
  {
    if forall i | 0 <= i < |rows| :: rows[i].payment.Absent? then Failure(KeyError)
    else Success(SortDescending(Map(rows, AbsPayment))[..if |rows| < 5 then |rows| else 5])
  }

  /**
   * The rows kept are best first, each an input row with its payment made
   * absolute, and no row left out ranks above a row kept. Which of several
   * equal payments come first is not promised.
   */
  lemma TopFiveRanks(rows: seq<Record>)
    requires TopFive(rows).Success?
    ensures SortedDescending(TopFive(rows).value)
    ensures multiset(TopFive(rows).value) <= multiset(Map(rows, AbsPayment))
    ensures forall y | multiset(TopFive(rows).value)[y] < multiset(Map(rows, AbsPayment))[y] ::
              forall x | x in TopFive(rows).value :: RanksAbove(x, y)
  {
    SortDescendingSorted(Map(rows, AbsPayment));
    PrefixOfSorted(SortDescending(Map(rows, AbsPayment)), if |rows| < 5 then |rows| else 5);
  }

  /** A record holding only a payment, for the example below. */
  function PaymentRow(p: Amount): Record {
    Record(Missing, None, None, None, None, p, None, Absent)
  }

  /** Inserting the smallest payment behind two larger ones puts it last. */
  lemma InsertSmallest()
    ensures Insert(PaymentRow(Sum(34667)), [PaymentRow(Sum(56267)), PaymentRow(Sum(50567))])
         == [PaymentRow(Sum(56267)), PaymentRow(Sum(50567)), PaymentRow(Sum(34667))]
  {
    var a, b, c := PaymentRow(Sum(34667)), PaymentRow(Sum(50567)), PaymentRow(Sum(56267));
    assert [c, b][1..] == [b];
    assert Insert(a, [b]) == [b, a];
  }

  /** Sorting three payments that arrive in ascending order reverses them. */
  lemma SortDescendingReversesAscending()
    ensures SortDescending([PaymentRow(Sum(34667)), PaymentRow(Sum(50567)), PaymentRow(Sum(56267))])
         == [PaymentRow(Sum(56267)), PaymentRow(Sum(50567)), PaymentRow(Sum(34667))]
  {
    var a, b, c := PaymentRow(Sum(34667)), PaymentRow(Sum(50567)), PaymentRow(Sum(56267));
    assert SortDescending([b, c]) == [c, b] by {
      assert [b, c][1..] == [c];
      assert SortDescending([c]) == [c];
      assert Insert(b, [c]) == [c, b];
    }
    assert [a, b, c][1..] == [b, c];
    InsertSmallest();
  }

  /** Making the payments absolute turns the refund of 505.67 into a payment of 505.67. */
  lemma AbsPaymentOfRefund()
    ensures Map([PaymentRow(Sum(34667)), PaymentRow(Sum(-50567)), PaymentRow(Sum(56267))], AbsPayment)
         == [PaymentRow(Sum(34667)), PaymentRow(Sum(50567)), PaymentRow(Sum(56267))]
  {
    assert AbsPayment(PaymentRow(Sum(-50567))) == PaymentRow(Sum(50567));
  }

  /** A refund of 505.67 ranks, by its absolute value, between 562.67 and 346.67. */
  lemma TopFiveOrdersByAbsoluteValue()
    ensures TopFive([PaymentRow(Sum(34667)), PaymentRow(Sum(-50567)), PaymentRow(Sum(56267))])
         == Success([PaymentRow(Sum(56267)), PaymentRow(Sum(50567)), PaymentRow(Sum(34667))])
  {
    var rows := [PaymentRow(Sum(34667)), PaymentRow(Sum(-50567)), PaymentRow(Sum(56267))];
    var sorted := [PaymentRow(Sum(56267)), PaymentRow(Sum(50567)), PaymentRow(Sum(34667))];
    assert !rows[0].payment.Absent?;
    assert SortDescending(Map(rows, AbsPayment)) == sorted by {
      AbsPaymentOfRefund();
      SortDescendingReversesAscending();
    }
    assert sorted[..3] == sorted;
  }
}
