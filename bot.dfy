/**
 * The message handling of bot.py around its in-memory ledger: `echo`
 * reads an amount and a category out of free text and records them,
 * `add_expense` appends a record, `get_expenses` and `show_expenses`
 * report what was spent per category.
 */
module Bot {
  import opened Options
  import opened Lexis
  import opened Scanner
  import opened Ledger

  /** What `echo` reads out of a message: the amount and the category name. */
  datatype Entry = Entry(amount: real, category: string)

  /** The reply to a message `echo` cannot read (one sentence, written as two literals). */
  const NotUnderstoodReply: string := "Sorry, I didn't quite get that. " + "Can you try again?"
  const NoSpendingReply: string := "You haven't spent anything yet this month!"

  /** A word names a category when its upper-case form is one of the table names. */
  predicate Qualifies(w: string) {
    Upper(w) in Categories
  }

  /** Index of the first word that names a category. */
  function FirstQualifying(ws: seq<string>): (r: Option<nat>)
    ensures r.None? <==> forall k :: 0 <= k < |ws| ==> !Qualifies(ws[k])
    ensures r.Some? ==>
              && r.value < |ws|
              && Qualifies(ws[r.value])
              && forall k :: 0 <= k < r.value ==> !Qualifies(ws[k])
  {
    if ws == [] then None
    else if Qualifies(ws[0]) then Some(0)
    else
      match FirstQualifying(ws[1..])
      case None => None
      case Some(k) => Some(k + 1)
  }

  /** The upper-case form of the first word (in the sense of `split`) whose `upper` is a table name. */
  function FirstCategory(message: string): (r: Option<string>)
    ensures r.None? <==> forall k :: 0 <= k < |Words(message)| ==> !Qualifies(Words(message)[k])
    ensures r.Some? ==> r.value in Categories
  {
    var ws := Words(message);
    match FirstQualifying(ws)
    case None => None
    case Some(k) => Some(Upper(ws[k]))
  }

  /** What `echo` records for a message: an entry when it has both an amount and a category word. */
  function Interpret(message: string): (r: Option<Entry>)
    ensures r.Some? ==> r.value.category in Categories && r.value.amount >= 0.0
  {
    var amount := FirstAmount(message);
    var category := FirstCategory(message);
    if amount.Some? && category.Some? then Some(Entry(amount.value, category.value)) else None
  }

  /** The reply `echo` gives after recording an entry. */
  function ConfirmationText(e: Entry, floatRepr: real -> string): (r: string)
    ensures r != NotUnderstoodReply && r != NoSpendingReply
  {
    var head := "Got it, you spent $";
    var r := head + AmountText(e.amount, floatRepr) + " on " + Lower(e.category);
    assert r[0] == head[0] == 'G';
    assert NotUnderstoodReply[0] == 'S';
    assert NoSpendingReply[0] == 'Y';
    r
  }

  /** Every record has a table category and an amount that is not negative. */
  ghost predicate WellFormed(es: seq<Expense>) {
    forall k :: 0 <= k < |es| ==> es[k].category in Categories && es[k].amount >= 0.0
  }

  /** A message is recorded exactly when it has a match of the amount pattern and a word that names a category. */
  lemma InterpretRecordsIff(message: string)
    ensures Interpret(message).Some? <==>
              && HasNumeral(message)
              && exists k :: 0 <= k < |Words(message)| && Qualifies(Words(message)[k])
  {
    FirstAmountIsLeftmostLongest(message);
    var ws := Words(message);
    assert FirstCategory(message).Some? <==> FirstQualifying(ws).Some?;
  }

  /**
   * The recorded amount is the value of the leftmost-longest match, and the
   * recorded category is the upper-case form of the first word naming a
   * category, so it is always a table name.
   */
  lemma InterpretPicksFirst(message: string)
    requires Interpret(message).Some?
    ensures var e := Interpret(message).value;
      && e.amount >= 0.0
      && e.category in Categories
      && (forall i: nat, j: nat :: LeftmostLongest(message, i, j) ==> e.amount == NumeralValue(message[i..j]))
      && exists k :: 0 <= k < |Words(message)|
           && e.category == Upper(Words(message)[k])
           && forall m :: 0 <= m < k ==> !Qualifies(Words(message)[m])
  {
    FirstAmountIsLeftmostLongest(message);
    var ws := Words(message);
    var k := FirstQualifying(ws).value;
    assert Interpret(message).value.category == Upper(ws[k]);
  }

  /** Every letter of every table name is an upper-case ASCII letter. */
  lemma TableNamesUpperCase(c: string, k: nat)
    requires c in Categories && k < |c|
    ensures 'A' <= c[k] <= 'Z'
  {
  }

  /** Category words are case-insensitive: each letter of a table name may be written in either case. */
  lemma AnyCasingQualifies(w: string, c: string)
    requires c in Categories && |w| == |c|
    requires forall k :: 0 <= k < |w| ==> w[k] == c[k] || w[k] == LowerChar(c[k])
    ensures Qualifies(w) && Upper(w) == c
  {
    forall k | 0 <= k < |w| ensures Upper(w)[k] == c[k] {
      TableNamesUpperCase(c, k);
    }
    assert Upper(w) == c;
  }

  /** A word that names a category is made of letters only: no digit, point or whitespace. */
  lemma QualifyingWordIsLetters(w: string)
    requires Qualifies(w)
    ensures |w| > 0
    ensures forall k :: 0 <= k < |w| ==> !IsDigit(w[k]) && w[k] != '.' && !IsSpace(w[k])
  {
    forall k | 0 <= k < |w| ensures !IsDigit(w[k]) && w[k] != '.' && !IsSpace(w[k]) {
      TableNamesUpperCase(Upper(w), k);
    }
  }

  /** A number's rendering never names a category. */
  lemma NumberIsNoCategory(n: nat)
    ensures !Qualifies(NatText(n))
  {
    var t := NatText(n);
    assert Upper(t)[0] == t[0];
    forall c | c in Categories ensures Upper(t) != c {
      TableNamesUpperCase(c, 0);
    }
  }

  /** "10 food" records (10, FOOD). */
  lemma {:induction false} InterpretAmountFirst(n: nat, w: string)
    requires Qualifies(w)
    ensures Interpret(NatText(n) + " " + w) == Some(Entry(n as real, Upper(w)))
  {
    var t := NatText(n);
    QualifyingWordIsLetters(w);
    NatTextIsNumeral(n);
    NumberIsNoCategory(n);
    SingleWord(t);
    SingleWord(w);
    var m := t + " " + w;
    WordsAroundSpace(t, ' ', w);
    assert m == t + [' '] + w;
    assert Words(m) == [t, w];
    assert Words(m)[1..] == [w];
    assert FirstQualifying([w]) == Some(0);
    assert FirstQualifying(Words(m)) == Some(1);
    assert FirstCategory(m) == Some(Upper(w));
    assert m[0..|t|] == t;
    forall j | |t| < j <= |m| ensures !IsNumeral(m[0..j]) {
      assert m[0..j][|t|] == ' ';
    }
    assert LeftmostLongest(m, 0, |t|);
    FirstAmountIsLeftmostLongest(m);
  }

  /** "food 10" records (10, FOOD) as well. */
  lemma {:induction false} InterpretCategoryFirst(n: nat, w: string)
    requires Qualifies(w)
    ensures Interpret(w + " " + NatText(n)) == Some(Entry(n as real, Upper(w)))
  {
    var t := NatText(n);
    QualifyingWordIsLetters(w);
    NatTextIsNumeral(n);
    NumberIsNoCategory(n);
    SingleWord(t);
    SingleWord(w);
    var m := w + " " + t;
    WordsAroundSpace(w, ' ', t);
    assert m == w + [' '] + t;
    assert Words(m) == [w, t];
    assert FirstQualifying(Words(m)) == Some(0);
    assert FirstCategory(m) == Some(Upper(w));
    assert m[|w| + 1..|m|] == t;
    forall i, j | 0 <= i < |w| + 1 && i <= j <= |m| ensures !IsNumeral(m[i..j]) {
      if IsNumeral(m[i..j]) {
        NumeralBeginsAtStart(m, i, j);
        assert false;
      }
    }
    assert LeftmostLongest(m, |w| + 1, |m|);
    FirstAmountIsLeftmostLongest(m);
  }

  /** No report text reads like the "no spending" reply. */
  lemma ReportIsNotNoSpending(lines: seq<Line>, floatRepr: real -> string)
    requires lines != []
    ensures ReportText(lines, floatRepr) != NoSpendingReply
  {
    var t := ReportText(lines, floatRepr);
    assert t[|t| - 1] == '\n';
    assert NoSpendingReply[|NoSpendingReply| - 1] == '!';
  }

  /** The bot's state: the module-level list `expenses`. */
  class ExpenseBot {
    var expenses: seq<Expense>

    constructor ()
      ensures expenses == []
    {
      expenses := [];
    }

    /** `add_expense`: append one record and return the whole list. */
    method AddExpense(amount: real, category: string, date: Date) returns (all: seq<Expense>)
      modifies this
      ensures |expenses| == |old(expenses)| + 1
      ensures expenses[..|old(expenses)|] == old(expenses)
      ensures expenses[|expenses| - 1] == Expense(amount, category, date)
      ensures all == expenses
    {
      expenses := expenses + [Expense(amount, category, date)];
      all := expenses;
    }

    /** The `sum` inside `get_expenses`: the amounts of the records whose category is exactly `cat`. */
    method Spending(cat: string) returns (spending: real)
      ensures spending == Total(expenses, cat)
    {
      spending := 0.0;
      for k := 0 to |expenses|
        invariant spending == Total(expenses[..k], cat)
      {
        assert expenses[..k + 1][..k] == expenses[..k];
        if expenses[k].category == cat {
          spending := spending + expenses[k].amount;
        }
      }
      assert expenses[..|expenses|] == expenses;
    }

    /** `get_expenses`: walk the table in order, sum each category, add a line for each positive sum. */
    method GetExpenses(floatRepr: real -> string) returns (result: string)
      ensures result == ReportText(Report(expenses), floatRepr)
    {
      result := "";
      for i := 0 to |Categories|
        invariant result == ReportText(LinesFor(Categories[..i], expenses), floatRepr)
      {
        var cat := Categories[i];
        var spending := Spending(cat);
        if spending > 0.0 {
          result := result + LineText(Line(cat, spending), floatRepr);
        }
        NextRoundText(expenses, i, floatRepr);
      }
      assert Categories[..|Categories|] == Categories;
    }

    /**
     * `show_expenses`: the report, or the fixed "no spending" reply when the
     * report is empty, which is exactly when no category has a positive total.
     */
    method ShowExpenses(floatRepr: real -> string) returns (reply: string)
      ensures reply == NoSpendingReply <==> forall c :: c in Categories ==> Total(expenses, c) <= 0.0
      ensures reply != NoSpendingReply ==> reply == ReportText(Report(expenses), floatRepr)
    {
      var all := GetExpenses(floatRepr);
      ReportEmptyIff(expenses);
      ReportTextEmptyIff(Report(expenses), floatRepr);
      if all == "" {
        reply := NoSpendingReply;
      } else {
        reply := all;
        ReportIsNotNoSpending(Report(expenses), floatRepr);
      }
    }

    /**
     * `echo`: record the first amount and the first category word of the
     * message dated `today`, or leave the ledger alone and apologise when
     * either is missing.
     */
    method Echo(message: string, today: Date, floatRepr: real -> string) returns (reply: string)
      modifies this
      ensures match Interpret(message)
        case Some(e) =>
          && expenses == old(expenses) + [Expense(e.amount, e.category, today)]
          && reply == ConfirmationText(e, floatRepr)
        case None =>
          && expenses == old(expenses)
          && reply == NotUnderstoodReply
      ensures WellFormed(old(expenses)) ==> WellFormed(expenses)
    {
      var num := FirstAmount(message);
      var cat := FirstCategory(message);
      if num.Some? && cat.Some? {
        var _ := AddExpense(num.value, cat.value, today);
        reply := ConfirmationText(Entry(num.value, cat.value), floatRepr);
        InterpretPicksFirst(message);
        assert expenses == old(expenses) + [Expense(num.value, cat.value, today)];
      } else {
        reply := NotUnderstoodReply;
      }
    }
  }
}
