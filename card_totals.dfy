/**
 * `transaction_analysis` (src/utils.py): per-card spending and cashback,
 * one entry per card in the order the cards first appear.
 */
module CardTotals {
  import opened Wrappers
  import opened Records
  import opened Seqs
  import opened Cashback

  /**
   * One element of the returned list: `{"last_digits", "total_spent", "cashback"}`.
   * A sum is NaN (`NotANumber`) once a NaN amount has been added to it.
   */
  datatype CardSummary = CardSummary(lastDigits: string, totalSpent: Amount, cashback: Amount)

  /** One value of the dict: the numeric sums so far, and whether a NaN has been added to them. */
  type Entry = (Kopecks, Kopecks, bool)

  /** `card_number.replace('*', '')`. */
  function StripMask(card: string): (r: string)
    ensures forall i | 0 <= i < |r| :: r[i] != '*'
    ensures |r| <= |card|
  {
    Filter(card, (c: char) => c != '*')
  }

  /** Removing the mask removes nothing else: the digits keep their order and count. */
  lemma StripMaskKeepsTheRest(card: string)
    ensures IsSubseq(StripMask(card), card)
    ensures forall c | c != '*' :: multiset(StripMask(card))[c] == multiset(card)[c]
  {
    FilterIsSubseq(card, (c: char) => c != '*');
    FilterCounts(card, (c: char) => c != '*');
  }

  /** The grouping key of a record: its stripped card number, or None when the number is not a str. */
  function CardKey(x: Record): Option<string> {
    if x.cardNumber.Some? then Some(StripMask(x.cardNumber.value)) else None
  }

  /**
   * The number `transaction.get('Сумма операции с округлением', 0)` adds: a
   * missing key gives the default 0. A NaN adds no number; it makes the
   * card's sums NaN instead (HasNaN).
   */
  function AmountOf(x: Record): Kopecks {
    if x.roundedAmount.Sum? then x.roundedAmount.kopecks else 0
  }

  /**
   * Some record of `card` has a NaN amount. `if amount:` holds for NaN, so
   * both `total_spent` and `cashback` of that card become NaN.
   */
  predicate HasNaN(rows: seq<Record>, card: string) {
    exists i | 0 <= i < |rows| :: CardKey(rows[i]) == Some(card) && rows[i].roundedAmount.NotANumber?
  }

  /** A float sum as emitted: NaN once a NaN was added, otherwise the exact sum. */
  function Summed(total: Kopecks, nan: bool): (a: Amount)
    ensures a.NotANumber? <==> nan
    ensures a.Sum? ==> a.kopecks == total
  {
    if nan then NotANumber else Sum(total)
  }

  /** The keys of the records with a textual card, in record order, repeats kept. */
  function CardKeys(rows: seq<Record>): (keys: seq<string>)
    ensures |keys| <= |rows|
    decreases |rows|
  {
    if rows == [] then []
    else
      var keys := CardKeys(rows[..|rows| - 1]);
      var last := rows[|rows| - 1];
      if CardKey(last).Some? then keys + [CardKey(last).value] else keys
  }

  /** A key is listed exactly when some record carries it. */
  lemma {:induction false} CardKeysMembers(rows: seq<Record>)
    ensures forall k :: k in CardKeys(rows) <==> exists x | x in rows :: CardKey(x) == Some(k)
    decreases |rows|
  {
    if rows != [] {
      var init, last := rows[..|rows| - 1], rows[|rows| - 1];
      assert forall x :: x in rows <==> x in init || x == last;
      CardKeysMembers(init);
    }
  }

  predicate Distinct(keys: seq<string>) {
    forall i, j | 0 <= i < j < |keys| :: keys[i] != keys[j]
  }

  /** The keys without repeats, each where it first occurs: the iteration order of a dict filled in that order. */
  function FirstSeen(keys: seq<string>): (r: seq<string>)
    ensures |r| <= |keys|
    decreases |keys|
  {
    if keys == [] then []
    else
      var r0 := FirstSeen(keys[..|keys| - 1]);
      var last := keys[|keys| - 1];
      if last in r0 then r0 else r0 + [last]
  }

  /** Dropping repeats keeps every key. */
  lemma {:induction false} FirstSeenMembers(keys: seq<string>)
    ensures forall k :: k in FirstSeen(keys) <==> k in keys
    decreases |keys|
  {
    if keys != [] {
      var init, last := keys[..|keys| - 1], keys[|keys| - 1];
      assert forall k :: k in keys <==> k in init || k == last;
      FirstSeenMembers(init);
    }
  }

  /** Dropping repeats leaves each key once. */
  lemma {:induction false} FirstSeenDistinct(keys: seq<string>)
    ensures Distinct(FirstSeen(keys))
    decreases |keys|
  {
    if keys != [] {
      FirstSeenDistinct(keys[..|keys| - 1]);
    }
  }

  /** Where `k` first occurs in `keys`. */
  function FirstIndex(keys: seq<string>, k: string): (i: nat)
    requires k in keys
    ensures i < |keys| && keys[i] == k && forall j | 0 <= j < i :: keys[j] != k
    decreases |keys|
  {
    var init := keys[..|keys| - 1];
    if k in init then FirstIndex(init, k) else |keys| - 1
  }

  /** FirstSeen lists the keys in order of first occurrence. */
  lemma {:induction false} FirstSeenOrder(keys: seq<string>, i: nat, j: nat)
    requires i < j < |FirstSeen(keys)|
    ensures FirstSeen(keys)[i] in keys && FirstSeen(keys)[j] in keys
    ensures FirstIndex(keys, FirstSeen(keys)[i]) < FirstIndex(keys, FirstSeen(keys)[j])
    decreases |keys|
  {
    FirstSeenMembers(keys);
    var init, last := keys[..|keys| - 1], keys[|keys| - 1];
    var r0 := FirstSeen(init);
    var r := FirstSeen(keys);
    FirstSeenMembers(init);
    assert forall m | 0 <= m < |r0| :: r[m] == r0[m];
    if j < |r0| {
      FirstSeenOrder(init, i, j);
      assert FirstIndex(keys, r[i]) == FirstIndex(init, r0[i]);
      assert FirstIndex(keys, r[j]) == FirstIndex(init, r0[j]);
    } else {
      assert r[j] == last && last !in init;
      assert r0[i] in init;
    }
  }

  /** Sum of `AmountOf` over the records whose key is `card`. */
  function SpentOn(rows: seq<Record>, card: string): Kopecks
    decreases |rows|
  {
    if rows == [] then 0
    else
      var last := rows[|rows| - 1];
      SpentOn(rows[..|rows| - 1], card) + (if CardKey(last) == Some(card) then AmountOf(last) else 0)
  }

  /** Sum of the per-record cashback over the records whose key is `card`. */
  function CashbackOn(rows: seq<Record>, card: string): Kopecks
    decreases |rows|
  {
    if rows == [] then 0
    else
      var last := rows[|rows| - 1];
      CashbackOn(rows[..|rows| - 1], card)
        + (if CardKey(last) == Some(card) then CalculateCashback(AmountOf(last)) else 0)
  }

  /** How each summary function moves when one record is appended. */
  lemma AppendRecord(rows: seq<Record>, x: Record)
    ensures CardKeys(rows + [x]) == CardKeys(rows) + (if CardKey(x).Some? then [CardKey(x).value] else [])
    ensures SpentOnAllCards(rows + [x]) == SpentOnAllCards(rows) + (if CardKey(x).Some? then AmountOf(x) else 0)
  {
    assert (rows + [x])[..|rows|] == rows;
  }

  lemma AppendRecordTo(rows: seq<Record>, x: Record, k: string)
    ensures SpentOn(rows + [x], k) == SpentOn(rows, k) + (if CardKey(x) == Some(k) then AmountOf(x) else 0)
    ensures CashbackOn(rows + [x], k)
         == CashbackOn(rows, k) + (if CardKey(x) == Some(k) then CalculateCashback(AmountOf(x)) else 0)
    ensures HasNaN(rows + [x], k) <==> HasNaN(rows, k) || (CardKey(x) == Some(k) && x.roundedAmount.NotANumber?)
  {
    var extended := rows + [x];
    assert extended[..|rows|] == rows;
    assert extended[|rows|] == x;
    if HasNaN(rows, k) {
      var i :| 0 <= i < |rows| && CardKey(rows[i]) == Some(k) && rows[i].roundedAmount.NotANumber?;
      assert extended[i] == rows[i];
    }
    if HasNaN(extended, k) && !(CardKey(x) == Some(k) && x.roundedAmount.NotANumber?) {
      var i :| 0 <= i < |extended| && CardKey(extended[i]) == Some(k) && extended[i].roundedAmount.NotANumber?;
      assert rows[i] == extended[i];
    }
  }

  lemma AppendKey(keys: seq<string>, k: string)
    ensures FirstSeen(keys + [k]) == if k in FirstSeen(keys) then FirstSeen(keys) else FirstSeen(keys) + [k]
  {
    assert (keys + [k])[..|keys|] == keys;
  }

  /** The state of the first loop after `rows`: the dict's keys in insertion order and its values. */
  ghost predicate Tallied(rows: seq<Record>, order: seq<string>, totals: map<string, Entry>) {
    && order == FirstSeen(CardKeys(rows))
    && (forall k :: k in totals <==> k in order)
    && forall k | k in totals :: totals[k] == (SpentOn(rows, k), CashbackOn(rows, k), HasNaN(rows, k))
  }

  /**
   * The dict update for one record: the card's entry, created at zero, gets
   * the amount and its cashback added; a missing amount adds 0, and a NaN
   * amount makes both sums NaN.
   */
  function Charge(totals: map<string, Entry>, card: string, amount: Amount): (r: map<string, Entry>)
    ensures r.Keys == totals.Keys + {card}
    ensures forall k | k in totals && k != card :: r[k] == totals[k]
    ensures var prior := if card in totals then totals[card] else (0, 0, false);
      r[card] == if amount.Sum? then (prior.0 + amount.kopecks, prior.1 + CalculateCashback(amount.kopecks), prior.2)
                 else (prior.0, prior.1, prior.2 || amount.NotANumber?)
  {
    var entry := if card in totals then totals[card] else (0, 0, false);
    var n := if amount.Sum? then amount.kopecks else 0;
    totals[card := (entry.0 + n, entry.1 + CalculateCashback(n), entry.2 || amount.NotANumber?)]
  }

  /** One step of the first loop on a record with a textual card. */
  lemma TallyRecord(rows: seq<Record>, x: Record, card: string, order: seq<string>,
                         totals: map<string, Entry>, order': seq<string>, totals': map<string, Entry>)
    requires Tallied(rows, order, totals)
    requires CardKey(x) == Some(card)
    requires order' == if card in order then order else order + [card]
    requires totals' == Charge(totals, card, x.roundedAmount)
    ensures Tallied(rows + [x], order', totals')
  {
    assert (SpentOn(rows, card), CashbackOn(rows, card), HasNaN(rows, card))
        == if card in totals then totals[card] else (0, 0, false) by {
      if card !in totals {
        FirstSeenMembers(CardKeys(rows));
        NoKeyNoSpending(rows, card);
      }
    }
    assert forall k | k in totals' :: totals'[k] == (SpentOn(rows + [x], k), CashbackOn(rows + [x], k), HasNaN(rows + [x], k)) by {
      forall k | k in totals'
        ensures totals'[k] == (SpentOn(rows + [x], k), CashbackOn(rows + [x], k), HasNaN(rows + [x], k))
      {
        AppendRecordTo(rows, x, k);
      }
    }
    assert order' == FirstSeen(CardKeys(rows + [x])) by {
      AppendRecord(rows, x);
      AppendKey(CardKeys(rows), card);
    }
    assert forall k :: k in totals' <==> k in order' by {
      assert forall k :: k in order' <==> k in order || k == card;
    }
  }

  /** One step of the first loop on a record without a textual card: nothing changes. */
  lemma TallySkip(rows: seq<Record>, x: Record, order: seq<string>, totals: map<string, Entry>)
    requires Tallied(rows, order, totals)
    requires CardKey(x).None?
    ensures Tallied(rows + [x], order, totals)
  {
    AppendRecord(rows, x);
    forall k | k in totals
      ensures totals[k] == (SpentOn(rows + [x], k), CashbackOn(rows + [x], k), HasNaN(rows + [x], k))
    {
      AppendRecordTo(rows, x, k);
    }
  }

  /**
   * The two loops of `transaction_analysis`: accumulate per key in a dict
   * whose insertion order is kept in `order`, then emit one summary per key.
   * Rounding the exact kopeck sums to two decimals changes nothing.
   */
  method TransactionAnalysis(transactions: seq<Record>) returns (result: seq<CardSummary>)
    ensures |result| == |FirstSeen(CardKeys(transactions))|
    ensures forall i | 0 <= i < |result| ::
      var card := FirstSeen(CardKeys(transactions))[i];
      var nan := HasNaN(transactions, card);
      result[i] == CardSummary(card, Summed(SpentOn(transactions, card), nan), Summed(CashbackOn(transactions, card), nan))
  {
    var totals: map<string, Entry> := map[];
    var order: seq<string> := [];
    var i := 0;
    while i < |transactions|
      invariant 0 <= i <= |transactions|
      invariant Tallied(transactions[..i], order, totals)
    {
      ghost var prefix, order0, totals0 := transactions[..i], order, totals;
      var x := transactions[i];
      if x.cardNumber.Some? {
        var card := StripMask(x.cardNumber.value);
        totals := Charge(totals, card, x.roundedAmount);
        if card !in order {
          order := order + [card];
        }
        assert Tallied(transactions[..i + 1], order, totals) by {
          assert transactions[..i + 1] == prefix + [x];
          TallyRecord(prefix, x, card, order0, totals0, order, totals);
        }
      } else {
        assert Tallied(transactions[..i + 1], order, totals) by {
          assert transactions[..i + 1] == prefix + [x];
          TallySkip(prefix, x, order, totals);
        }
      }
      i := i + 1;
    }
    assert transactions[..i] == transactions;
    result := [];
    var j := 0;
    while j < |order|
      invariant 0 <= j <= |order|
      invariant |result| == j
      invariant forall m | 0 <= m < j ::
        var entry := totals[order[m]];
        result[m] == CardSummary(order[m], Summed(entry.0, entry.2), Summed(entry.1, entry.2))
    {
      var card := order[j];
      var entry := totals[card];
      result := result + [CardSummary(card, Summed(entry.0, entry.2), Summed(entry.1, entry.2))];
      j := j + 1;
    }
  }

  /** A card that never occurs has nothing spent, nothing earned and no NaN. */
  lemma {:induction false} NoKeyNoSpending(rows: seq<Record>, card: string)
    requires card !in CardKeys(rows)
    ensures SpentOn(rows, card) == 0 && CashbackOn(rows, card) == 0 && !HasNaN(rows, card)
    decreases |rows|
  {
    CardKeysMembers(rows);
    forall i | 0 <= i < |rows|
      ensures CardKey(rows[i]) != Some(card)
    {
      assert rows[i] in rows;
    }
    if rows != [] {
      var init := rows[..|rows| - 1];
      assert forall x | x in init :: x in rows;
      NoKeyNoSpending(init, card);
    }
  }

  /** Records whose card number is not a str are skipped: with only those, the result is empty. */
  lemma {:induction false} NoTextualCardNoSummary(rows: seq<Record>)
    requires forall x | x in rows :: x.cardNumber.None?
    ensures CardKeys(rows) == [] && FirstSeen(CardKeys(rows)) == []
    decreases |rows|
  {
    if rows != [] {
      var init := rows[..|rows| - 1];
      assert forall x | x in init :: x in rows;
      NoTextualCardNoSummary(init);
    }
  }

  /** Sum of `AmountOf` over every record with a textual card. */
  function SpentOnAllCards(rows: seq<Record>): Kopecks
    decreases |rows|
  {
    if rows == [] then 0
    else
      var last := rows[|rows| - 1];
      SpentOnAllCards(rows[..|rows| - 1]) + (if CardKey(last).Some? then AmountOf(last) else 0)
  }

  /** Σ over `cards` of what each was charged. */
  function SpentOnEach(rows: seq<Record>, cards: seq<string>): Kopecks
    decreases |cards|
  {
    if cards == [] then 0
    else SpentOnEach(rows, cards[..|cards| - 1]) + SpentOn(rows, cards[|cards| - 1])
  }

  /** Appending a record changes the per-card sum only for its own card, and only if listed. */
  lemma {:induction false} SpentOnEachAppend(rows: seq<Record>, x: Record, cards: seq<string>)
    requires Distinct(cards)
    ensures SpentOnEach(rows + [x], cards)
         == SpentOnEach(rows, cards) + (if CardKey(x).Some? && CardKey(x).value in cards then AmountOf(x) else 0)
    decreases |cards|
  {
    assert (rows + [x])[..|rows|] == rows;
    if cards != [] {
      var init := cards[..|cards| - 1];
      assert Distinct(init);
      SpentOnEachAppend(rows, x, init);
      assert forall k :: k in cards <==> k in init || k == cards[|cards| - 1];
    }
  }

  /**
   * Nothing is lost or counted twice: the totals of all emitted entries add
   * up to everything spent on textual cards (before any rounding).
   */
  lemma {:induction false} TotalsAddUp(rows: seq<Record>)
    ensures SpentOnEach(rows, FirstSeen(CardKeys(rows))) == SpentOnAllCards(rows)
    decreases |rows|
  {
    if rows != [] {
      var init, last := rows[..|rows| - 1], rows[|rows| - 1];
      assert rows == init + [last];
      TotalsAddUp(init);
      AppendRecord(init, last);
      var cards := FirstSeen(CardKeys(init));
      FirstSeenDistinct(CardKeys(init));
      FirstSeenMembers(CardKeys(init));
      SpentOnEachAppend(init, last, cards);
      if CardKey(last).Some? {
        var k := CardKey(last).value;
        AppendKey(CardKeys(init), k);
        if k !in cards {
          NoKeyNoSpending(init, k);
          assert (cards + [k])[..|cards|] == cards;
          assert SpentOnEach(rows, cards + [k]) == SpentOnEach(rows, cards) + SpentOn(rows, k);
        }
      }
    }
  }

  /** A record holding only a card number and a rounded amount, for the examples below. */
  function CardRow(card: string, amount: Amount): Record {
    Record(Missing, None, None, None, Some(card), Absent, None, amount)
  }

  /** Appending one character to a card number. */
  lemma StripMaskAppend(card: string, c: char)
    ensures StripMask(card + [c]) == StripMask(card) + (if c != '*' then [c] else [])
  {
    assert (card + [c])[..|card|] == card;
  }

  /** A number masked by one leading '*' strips to the characters after it. */
  lemma {:induction false} StripMaskLeadingStar(digits: string)
    requires forall i | 0 <= i < |digits| :: digits[i] != '*'
    ensures StripMask("*" + digits) == digits
    decreases |digits|
  {
    if digits == [] {
      StripMaskAppend("", '*');
      assert "*" + digits == "" + ['*'];
    } else {
      var init, last := digits[..|digits| - 1], digits[|digits| - 1];
      StripMaskLeadingStar(init);
      assert "*" + digits == ("*" + init) + [last];
      StripMaskAppend("*" + init, last);
      assert digits == init + [last];
    }
  }

  /** The example's records carry the keys 7197, 7197 and 5091, in that order. */
  lemma TwoCardsKeys()
    ensures CardKeys([CardRow("*7197", Sum(3400)), CardRow("*7197", Sum(17269)), CardRow("*5091", Sum(4292))])
         == ["7197", "7197", "5091"]
  {
    var a, b, c := CardRow("*7197", Sum(3400)), CardRow("*7197", Sum(17269)), CardRow("*5091", Sum(4292));
    StripMaskLeadingStar("7197");
    StripMaskLeadingStar("5091");
    assert "*" + "7197" == "*7197" && "*" + "5091" == "*5091";
    assert [a] == [] + [a] && [a, b] == [a] + [b] && [a, b, c] == [a, b] + [c];
    AppendRecord([], a);
    AppendRecord([a], b);
    AppendRecord([a, b], c);
  }

  /** A repeated key keeps its first place. */
  lemma FirstSeenOfRepeat()
    ensures FirstSeen(["7197", "7197", "5091"]) == ["7197", "5091"]
  {
    assert ["7197"] == [] + ["7197"] && ["7197", "7197"] == ["7197"] + ["7197"];
    assert ["7197", "7197", "5091"] == ["7197", "7197"] + ["5091"];
    AppendKey([], "7197");
    AppendKey(["7197"], "7197");
    AppendKey(["7197", "7197"], "5091");
  }

  /** 34.00 and 172.69 on *7197, then 42.92 on *5091: two entries, *7197 first. */
  lemma TwoCardsOrder()
    ensures FirstSeen(CardKeys([CardRow("*7197", Sum(3400)), CardRow("*7197", Sum(17269)), CardRow("*5091", Sum(4292))]))
         == ["7197", "5091"]
  {
    TwoCardsKeys();
    FirstSeenOfRepeat();
  }

  /** The same records: 206.69 spent and 2.07 cashback on *7197, 42.92 and 0.43 on *5091. */
  lemma TwoCardsTotals()
    ensures var rows := [CardRow("*7197", Sum(3400)), CardRow("*7197", Sum(17269)), CardRow("*5091", Sum(4292))];
      && SpentOn(rows, "7197") == 20669 && CashbackOn(rows, "7197") == 207
      && SpentOn(rows, "5091") == 4292 && CashbackOn(rows, "5091") == 43
  {
    var a, b, c := CardRow("*7197", Sum(3400)), CardRow("*7197", Sum(17269)), CardRow("*5091", Sum(4292));
    StripMaskLeadingStar("7197");
    StripMaskLeadingStar("5091");
    assert "*" + "7197" == "*7197" && "*" + "5091" == "*5091";
    CalculateCashbackExamples();
    assert [a] == [] + [a] && [a, b] == [a] + [b] && [a, b, c] == [a, b] + [c];
    AppendRecordTo([], a, "7197");
    AppendRecordTo([a], b, "7197");
    AppendRecordTo([a, b], c, "7197");
    AppendRecordTo([], a, "5091");
    AppendRecordTo([a], b, "5091");
    AppendRecordTo([a, b], c, "5091");
  }

  /**
   * A NaN amount poisons its card for good: whatever other records follow,
   * that card's entry reports NaN for both sums.
   */
  lemma NaNAmountPoisonsCard(rows: seq<Record>, x: Record, later: seq<Record>)
    requires CardKey(x).Some? && x.roundedAmount.NotANumber?
    ensures HasNaN(rows + [x] + later, CardKey(x).value)
  {
    var all := rows + [x] + later;
    assert all[|rows|] == x;
  }

  /** With no NaN amount on a card, its entry holds the exact sums. */
  lemma NoNaNExactSums(rows: seq<Record>, card: string)
    requires forall i | 0 <= i < |rows| :: !rows[i].roundedAmount.NotANumber?
    ensures Summed(SpentOn(rows, card), HasNaN(rows, card)) == Sum(SpentOn(rows, card))
    ensures Summed(CashbackOn(rows, card), HasNaN(rows, card)) == Sum(CashbackOn(rows, card))
  {
  }
}
