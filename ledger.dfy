/**
 * The expense records of bot.py, the fixed category table, and the
 * per-category report that `get_expenses` builds from them.
 */
module Ledger {
  import opened Lexis
  import opened Scanner

  /** `categories`: the closed table of category names, in declared order. */
  const Categories: seq<string> := ["FOOD", "SHOPPING", "TRANSPORTATION", "ENTERTAINMENT", "SPORT"]

  /** A calendar date; records carry it and nothing in the model inspects it. */
  datatype Date = Date(year: int, month: int, day: int)

  /** One entry of `expenses`: the dictionary with keys 'amount', 'category' and 'date'. */
  datatype Expense = Expense(amount: real, category: string, date: Date)

  /** One line of the report: a category and what was spent on it. */
  datatype Line = Line(category: string, total: real)

  /** Position of a table name in `Categories`. */
  function CatIndex(c: string): (i: nat)
    requires c in Categories
    ensures i < |Categories| && Categories[i] == c
  {
    if c == Categories[0] then 0
    else if c == Categories[1] then 1
    else if c == Categories[2] then 2
    else if c == Categories[3] then 3
    else 4
  }

  lemma CategoriesDistinct()
    ensures forall i :: 0 <= i < |Categories| ==> CatIndex(Categories[i]) == i
  {
  }

  /** No record has a negative amount (stated record by record from the back, like `Total`). */
  ghost predicate NoNegativeAmount(es: seq<Expense>) {
    es == [] || (NoNegativeAmount(es[..|es| - 1]) && es[|es| - 1].amount >= 0.0)
  }

  /** No record has the category `cat` (stated record by record from the back, like `Total`). */
  ghost predicate NoneOfCategory(es: seq<Expense>, cat: string) {
    es == [] || (NoneOfCategory(es[..|es| - 1], cat) && es[|es| - 1].category != cat)
  }

  /** The `sum` of the amounts of the records whose category is exactly `cat`, taken left to right. */
  function Total(es: seq<Expense>, cat: string): (r: real)
    ensures NoNegativeAmount(es) ==> r >= 0.0
    ensures NoneOfCategory(es, cat) ==> r == 0.0
  {
    if es == [] then 0.0
    else
      var e := es[|es| - 1];
      Total(es[..|es| - 1], cat) + (if e.category == cat then e.amount else 0.0)
  }

  /** The lines that the loop of `get_expenses` adds for the categories `cats`, in their order. */
  function LinesFor(cats: seq<string>, es: seq<Expense>): (r: seq<Line>)
    ensures |r| <= |cats|
    ensures forall p :: 0 <= p < |r| ==> r[p].total > 0.0
  {
    if cats == [] then []
    else
      var c := cats[|cats| - 1];
      LinesFor(cats[..|cats| - 1], es) + (if Total(es, c) > 0.0 then [Line(c, Total(es, c))] else [])
  }

  /** The report of `get_expenses` over the whole table, as lines. */
  function Report(es: seq<Expense>): (r: seq<Line>)
    ensures |r| <= |Categories|
    ensures forall p :: 0 <= p < |r| ==> r[p].total > 0.0
  {
    LinesFor(Categories, es)
  }

  /** How round `n` of the loop extends the lines of the rounds before it. */
  lemma NextRound(es: seq<Expense>, n: nat) returns (c: string, prev: seq<Line>, r: seq<Line>)
    requires 0 < n <= |Categories|
    ensures c == Categories[n - 1] && CatIndex(c) == n - 1
    ensures prev == LinesFor(Categories[..n - 1], es)
    ensures r == LinesFor(Categories[..n], es)
    ensures r == prev + (if Total(es, c) > 0.0 then [Line(c, Total(es, c))] else [])
  {
    CategoriesDistinct();
    assert Categories[..n][..n - 1] == Categories[..n - 1];
    c := Categories[n - 1];
    prev := LinesFor(Categories[..n - 1], es);
    r := LinesFor(Categories[..n], es);
  }

  /** No name occurs twice in `cats`. */
  ghost predicate Distinct(cats: seq<string>) {
    forall i, j :: 0 <= i < j < |cats| ==> cats[i] != cats[j]
  }

  /** The last position of `x` in `cats` (the only one when `cats` is `Distinct`). */
  function Position(cats: seq<string>, x: string): (i: nat)
    requires x in cats
    ensures i < |cats| && cats[i] == x
  {
    var last := |cats| - 1;
    if cats[last] == x then last
    else
      var k :| 0 <= k < |cats| && cats[k] == x;
      assert cats[..last][k] == x;
      Position(cats[..last], x)
  }

  /**
   * The loop of `get_expenses` run over the names `cats` (every prefix of the
   * table is one, so this holds after each round): every line is for one of
   * those names, with that name's total, which is positive.
   */
  lemma {:induction false} LinesSound(cats: seq<string>, es: seq<Expense>)
    ensures forall p :: 0 <= p < |LinesFor(cats, es)| ==>
      && LinesFor(cats, es)[p].category in cats
      && LinesFor(cats, es)[p].total == Total(es, LinesFor(cats, es)[p].category)
      && LinesFor(cats, es)[p].total > 0.0
  {
    if cats != [] {
      var init, c := cats[..|cats| - 1], cats[|cats| - 1];
      var prev := LinesFor(init, es);
    var r := LinesFor(cats, es);
      LinesSound(init, es);
      forall p | 0 <= p < |r|
        ensures r[p].category in cats && r[p].total == Total(es, r[p].category) && r[p].total > 0.0
      {
        if p < |prev| {
          assert r[p] == prev[p];
          var k :| 0 <= k < |init| && init[k] == prev[p].category;
          assert cats[k] == init[k];
        } else {
          assert r[p] == Line(c, Total(es, c));
        }
      }
    }
  }

  /** Over names none of which repeats, the loop's lines follow the order of the names. */
  lemma {:induction false} LinesOrdered(cats: seq<string>, es: seq<Expense>)
    requires Distinct(cats)
    ensures forall p, q :: 0 <= p < q < |LinesFor(cats, es)| ==>
      && LinesFor(cats, es)[p].category in cats
      && LinesFor(cats, es)[q].category in cats
      && Position(cats, LinesFor(cats, es)[p].category) < Position(cats, LinesFor(cats, es)[q].category)
  {
    if cats != [] {
      var last := |cats| - 1;
      var init, c := cats[..last], cats[last];
      var prev := LinesFor(init, es);
      var r := LinesFor(cats, es);
      assert Distinct(init) by {
        forall i, j | 0 <= i < j < |init| ensures init[i] != init[j] {
          assert init[i] == cats[i] && init[j] == cats[j];
        }
      }
      LinesOrdered(init, es);
      LinesSound(init, es);
      forall p, q | 0 <= p < q < |LinesFor(cats, es)|
        ensures && LinesFor(cats, es)[p].category in cats
                && LinesFor(cats, es)[q].category in cats
                && Position(cats, LinesFor(cats, es)[p].category) < Position(cats, LinesFor(cats, es)[q].category)
      {
        assert r[p] == prev[p];
        var x := prev[p].category;
        SamePositionBeforeLast(cats, x);
        if q < |prev| {
          assert r[q] == prev[q];
          SamePositionBeforeLast(cats, prev[q].category);
        } else {
          assert r[q] == Line(c, Total(es, c));
          assert cats[last] == c;
        }
      }
    } else {
      assert LinesFor(cats, es) == [];
    }
  }

  /** In a list without repeats, a name before the last keeps its position when the last is dropped. */
  lemma SamePositionBeforeLast(cats: seq<string>, x: string)
    requires |cats| > 0 && Distinct(cats) && x in cats[..|cats| - 1]
    ensures x in cats && x != cats[|cats| - 1]
    ensures Position(cats, x) == Position(cats[..|cats| - 1], x) < |cats| - 1
  {
    var init := cats[..|cats| - 1];
    var i := Position(init, x);
    assert cats[i] == x;
  }

  /** Each of the names `x` the loop visits gets a line exactly when its total is positive. */
  lemma {:induction false} LinesComplete(cats: seq<string>, es: seq<Expense>, x: string)
    requires x in cats
    ensures Total(es, x) > 0.0 <==> exists p :: 0 <= p < |LinesFor(cats, es)| && LinesFor(cats, es)[p].category == x
  {
    var init, c := cats[..|cats| - 1], cats[|cats| - 1];
    var prev := LinesFor(init, es);
      var r := LinesFor(cats, es);
    if x in init {
      LinesComplete(init, es, x);
      if Total(es, x) > 0.0 {
        var p :| 0 <= p < |prev| && prev[p].category == x;
        assert LinesFor(cats, es)[p] == prev[p];
      } else {
        forall p | 0 <= p < |r| ensures r[p].category != x {
          if p < |prev| {
            assert r[p] == prev[p];
          } else {
            assert r[p] == Line(c, Total(es, c));
          }
        }
      }
    } else {
      if Total(es, x) > 0.0 {
        assert r[|prev|] == Line(c, Total(es, c));
      } else {
        LinesSound(init, es);
        assert r == prev;
      }
    }
  }

  /** The table lists no name twice, and `CatIndex` is the position in it. */
  lemma CategoriesPositions()
    ensures Distinct(Categories)
    ensures forall c :: c in Categories ==> CatIndex(c) == Position(Categories, c)
  {
    CategoriesDistinct();
  }

  /**
   * What `get_expenses` reports: only table categories, in declared order,
   * at most one line each, each with the sum over the records of exactly
   * that category; a category gets a line exactly when that sum is positive.
   */
  lemma ReportLines(es: seq<Expense>)
    ensures var r := Report(es);
      && (forall p :: 0 <= p < |r| ==>
            && r[p].category in Categories
            && r[p].total == Total(es, r[p].category)
            && r[p].total > 0.0)
      && (forall p, q :: 0 <= p < q < |r| ==> CatIndex(r[p].category) < CatIndex(r[q].category))
      && (forall p, q :: 0 <= p < |r| && 0 <= q < |r| && p != q ==> r[p].category != r[q].category)
      && (forall c :: c in Categories ==>
            (Total(es, c) > 0.0 <==> exists p :: 0 <= p < |r| && r[p].category == c))
  {
    var r := Report(es);
    CategoriesPositions();
    LinesSound(Categories, es);
    LinesOrdered(Categories, es);
    forall c | c in Categories
      ensures Total(es, c) > 0.0 <==> exists p :: 0 <= p < |r| && r[p].category == c
    {
      LinesComplete(Categories, es, c);
    }
  }

  /** The report has no line exactly when no table category has a positive total. */
  lemma ReportEmptyIff(es: seq<Expense>)
    ensures Report(es) == [] <==> forall c :: c in Categories ==> Total(es, c) <= 0.0
  {
    ReportLines(es);
    var r := Report(es);
    if r != [] {
      assert r[0].category in Categories && Total(es, r[0].category) > 0.0;
    }
  }

  /**
   * Appending a record changes the total of its own category by its amount and no other total.
   * This is the defining equation of `Total`, stated for `es + [e]`; it serves as a helper.
   */
  lemma AddChangesOnlyItsCategory(es: seq<Expense>, e: Expense, c: string)
    ensures Total(es + [e], c) == Total(es, c) + (if e.category == c then e.amount else 0.0)
  {
    assert (es + [e])[..|es|] == es;
  }

  lemma {:induction false} SameTotalsSameLines(cats: seq<string>, es: seq<Expense>, fs: seq<Expense>)
    requires forall i :: 0 <= i < |cats| ==> Total(es, cats[i]) == Total(fs, cats[i])
    ensures LinesFor(cats, es) == LinesFor(cats, fs)
  {
    if cats != [] {
      SameTotalsSameLines(cats[..|cats| - 1], es, fs);
    }
  }

  /** A record whose category is not in the table never shows in the report. */
  lemma UnknownCategoryIgnored(es: seq<Expense>, e: Expense)
    requires e.category !in Categories
    ensures Report(es + [e]) == Report(es)
  {
    forall i | 0 <= i < |Categories| ensures Total(es + [e], Categories[i]) == Total(es, Categories[i]) {
      AddChangesOnlyItsCategory(es, e, Categories[i]);
    }
    SameTotalsSameLines(Categories, es + [e], es);
  }

  lemma {:induction false} TotalNotPositive(es: seq<Expense>, c: string)
    requires forall k :: 0 <= k < |es| ==> es[k].amount <= 0.0
    ensures Total(es, c) <= 0.0
  {
    if es != [] {
      TotalNotPositive(es[..|es| - 1], c);
    }
  }

  /** With no record of a positive amount (in particular with no record at all) the report has no line and its text is empty. */
  lemma NothingSpentNoLines(es: seq<Expense>, floatRepr: real -> string)
    requires forall k :: 0 <= k < |es| ==> es[k].amount <= 0.0
    ensures Report(es) == [] && ReportText(Report(es), floatRepr) == ""
  {
    ReportLines(es);
    var r := Report(es);
    if r != [] {
      TotalNotPositive(es, r[0].category);
    }
  }

  // ----------------------------------------------------------------- text

  /** The test `spending == int(spending)`. */
  predicate IsWhole(x: real) {
    x == x.Floor as real
  }

  /** `str(int(x))` for a whole `x`. */
  function IntText(i: int): (r: string)
    ensures |r| > 0 && (r[0] == '-' <==> i < 0)
    ensures i >= 0 ==> AllDigits(r)
  {
    if i < 0 then "-" + NatText(-i) else NatText(i)
  }

  /**
   * How bot.py writes an amount: a whole amount as the integer it equals,
   * any other through Python's float repr, which is the parameter `floatRepr`.
   */
  function AmountText(x: real, floatRepr: real -> string): (r: string)
    ensures IsWhole(x) && x >= 0.0 ==> |r| > 0 && AllDigits(r)
  {
    if IsWhole(x) then IntText(x.Floor) else floatRepr(x)
  }

  /** A whole non-negative amount is written with no fractional part, and reading the text back gives the amount. */
  lemma WholeAmountText(x: real, floatRepr: real -> string)
    requires IsWhole(x) && x >= 0.0
    ensures var t := AmountText(x, floatRepr);
      && AllDigits(t)
      && IsNumeral(t)
      && NumeralValue(t) == x
  {
    NatTextIsNumeral(x.Floor);
  }

  const SpentPrefix: string := "You've spent $"

  /** One line of the report text: the spent prefix, the amount, " on ", the `title` form of the category, a newline. */
  function LineText(l: Line, floatRepr: real -> string): (r: string)
    ensures |r| > |SpentPrefix| && r[..|SpentPrefix|] == SpentPrefix
    ensures r[|r| - 1] == '\n'
  {
    SpentPrefix + AmountText(l.total, floatRepr) + " on " + Title(l.category) + "\n"
  }

  /** The string `get_expenses` returns for the given lines. */
  function ReportText(lines: seq<Line>, floatRepr: real -> string): (r: string)
    ensures lines != [] ==> |r| > 0 && r[|r| - 1] == '\n'
  {
    if lines == [] then ""
    else ReportText(lines[..|lines| - 1], floatRepr) + LineText(lines[|lines| - 1], floatRepr)
  }

  /** The defining equation of `ReportText`, stated for `lines + [l]`; a helper for the loop of `get_expenses`. */
  lemma ReportTextAppend(lines: seq<Line>, l: Line, floatRepr: real -> string)
    ensures ReportText(lines + [l], floatRepr) == ReportText(lines, floatRepr) + LineText(l, floatRepr)
  {
    assert (lines + [l])[..|lines|] == lines;
  }

  lemma NextRoundText(es: seq<Expense>, i: nat, floatRepr: real -> string)
    requires i < |Categories|
    ensures var c := Categories[i];
      ReportText(LinesFor(Categories[..i + 1], es), floatRepr)
      == ReportText(LinesFor(Categories[..i], es), floatRepr)
         + (if Total(es, c) > 0.0 then LineText(Line(c, Total(es, c)), floatRepr) else "")
  {
    var c, prev, next := NextRound(es, i + 1);
    if Total(es, c) > 0.0 {
      ReportTextAppend(prev, Line(c, Total(es, c)), floatRepr);
    } else {
      assert next == prev;
      assert ReportText(prev, floatRepr) + "" == ReportText(prev, floatRepr);
    }
  }

  /** The report text is empty exactly when there is no line, and otherwise begins like every line does. */
  lemma {:induction false} ReportTextEmptyIff(lines: seq<Line>, floatRepr: real -> string)
    ensures ReportText(lines, floatRepr) == "" <==> lines == []
    ensures lines != [] ==>
              |ReportText(lines, floatRepr)| >= |SpentPrefix|
              && ReportText(lines, floatRepr)[..|SpentPrefix|] == SpentPrefix
  {
    if lines != [] {
      var init := lines[..|lines| - 1];
      var last := LineText(lines[|lines| - 1], floatRepr);
      ReportTextEmptyIff(init, floatRepr);
      var t := ReportText(init, floatRepr);
      if init == [] {
        assert t + last == last;
      } else {
        assert (t + last)[..|SpentPrefix|] == t[..|SpentPrefix|];
      }
    }
  }
}
