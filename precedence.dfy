/**
 * The precedence levels of grammar.js (the `PREC` object) and the table of
 * binary operators from which `binary_expression` is built.
 */
module Precedence {

  /** The keys of `PREC`, in the order they are declared. */
  datatype Level =
    | Parentheses | Assignment | Spread | Disjunction | Conjunction | Equality
    | Comparison | NamedChecks | Elvis | Infix | Range | Additive | Multiplicative
    | As | Prefix | Postfix | Index | Member | Call

  /** The number `PREC` gives each level. */
  function Value(l: Level): int {
    match l
    case Parentheses => -1
    case Assignment => 1
    case Spread => 2
    case Disjunction => 3
    case Conjunction => 4
    case Equality => 5
    case Comparison => 6
    case NamedChecks => 7
    case Elvis => 8
    case Infix => 9
    case Range => 10
    case Additive => 11
    case Multiplicative => 12
    case As => 13
    case Prefix => 14
    case Postfix => 15
    case Index => 16
    case Member => 17
    case Call => 18
  }

  /** The levels in declaration order. */
  const Declared: seq<Level> := [
    Parentheses, Assignment, Spread, Disjunction, Conjunction, Equality,
    Comparison, NamedChecks, Elvis, Infix, Range, Additive, Multiplicative,
    As, Prefix, Postfix, Index, Member, Call
  ]

  /**
   * Each level's value is its place in the declaration, except that the
   * first, `PARENTHESES`, sits below zero; no value is zero.
   */
  lemma ValueIsDeclarationPlace()
    ensures |Declared| == 19
    ensures forall i :: 1 <= i < |Declared| ==> Value(Declared[i]) == i
    ensures Value(Declared[0]) == -1
  {
    forall i | 1 <= i < |Declared| ensures Value(Declared[i]) == i {
      if i < 10 {
        assert i in {1, 2, 3, 4, 5, 6, 7, 8, 9};
      } else {
        assert i in {10, 11, 12, 13, 14, 15, 16, 17, 18};
      }
    }
  }

  /** The values strictly increase in declaration order, from -1 to 18. */
  lemma ValuesIncrease()
    ensures forall i, j :: 0 <= i < j < |Declared| ==> Value(Declared[i]) < Value(Declared[j])
    ensures Value(Declared[0]) == -1 && Value(Declared[|Declared| - 1]) == 18
  {
    ValueIsDeclarationPlace();
  }

  /** Every level is declared exactly once. */
  lemma DeclaredOnce(l: Level)
    ensures exists i :: 0 <= i < |Declared| && Declared[i] == l
    ensures forall i, j :: 0 <= i < j < |Declared| ==> Declared[i] != Declared[j]
  {
    ValuesIncrease();
    assert l in Declared;
  }

  /** The binary levels in the order Kotlin groups them, loosest last. */
  lemma BinaryLevelsOrdered()
    ensures Value(Multiplicative) > Value(Additive) > Value(Range) > Value(Elvis) > Value(Comparison)
    ensures Value(Comparison) > Value(Equality) > Value(Conjunction) > Value(Disjunction) > Value(Assignment)
  {
    ValuesIncrease();
    assert Declared[12] == Multiplicative && Declared[11] == Additive && Declared[10] == Range;
  }

  // ---------------------------------------------------------------------
  // The binary-operator table
  // ---------------------------------------------------------------------

  /** One row of the table: an operator symbol and its level. */
  datatype Entry = Entry(op: string, level: Level)

  const Table: seq<Entry> := [
    Entry("*", Spread),
    Entry("||", Disjunction),
    Entry("&&", Conjunction),
    Entry("==", Equality),
    Entry("!=", Equality),
    Entry("===", Equality),
    Entry("!==", Equality),
    Entry("<", Comparison),
    Entry(">", Comparison),
    Entry("<=", Comparison),
    Entry(">=", Comparison),
    Entry("?:", Elvis),
    Entry("..", Range),
    Entry("+", Additive),
    Entry("-", Additive),
    Entry("*", Multiplicative),
    Entry("/", Multiplicative),
    Entry("%", Multiplicative)
  ]

  /** The levels the table gives `op`. */
  function LevelsOf(op: string): (ls: set<Level>)
    ensures forall l :: l in ls <==> exists i :: 0 <= i < |Table| && Table[i] == Entry(op, l)
  {
    set i | 0 <= i < |Table| && Table[i].op == op :: Table[i].level
  }

  /** `*` is given two levels, spreading and multiplication. */
  lemma StarHasTwoLevels()
    ensures LevelsOf("*") == {Spread, Multiplicative}
  {
    assert Table[0] == Entry("*", Spread) && Table[15] == Entry("*", Multiplicative);
    forall l | l in LevelsOf("*") ensures l == Spread || l == Multiplicative {
      var i :| 0 <= i < |Table| && Table[i] == Entry("*", l);
      assert i == 0 || i == 15;
    }
  }

  /** Apart from the two rows for `*`, no operator symbol is listed twice. */
  lemma OnlyStarIsRepeated()
    ensures forall i, j :: 0 <= i < j < |Table| && Table[i].op == Table[j].op ==> i == 0 && j == 15
  {
  }

  /** Every operator other than `*` has exactly one level: the one in its row. */
  lemma OtherOperatorsHaveOneLevel(i: nat)
    requires i < |Table| && Table[i].op != "*"
    ensures LevelsOf(Table[i].op) == {Table[i].level}
  {
    OnlyStarIsRepeated();
    var op := Table[i].op;
    forall l | l in LevelsOf(op) ensures l == Table[i].level {
      var j :| 0 <= j < |Table| && Table[j] == Entry(op, l);
      assert j == i;
    }
  }

  /** An operator has at most two levels, and two exactly when it is `*`. */
  lemma LevelCount(op: string)
    ensures |LevelsOf(op)| <= 2
    ensures |LevelsOf(op)| == 2 <==> op == "*"
  {
    if op == "*" {
      StarHasTwoLevels();
    } else if i :| 0 <= i < |Table| && Table[i].op == op {
      OtherOperatorsHaveOneLevel(i);
    } else {
      assert LevelsOf(op) == {};
    }
  }

  // ---------------------------------------------------------------------
  // The alternatives of binary_expression
  // ---------------------------------------------------------------------

  datatype Associativity = Left | Right

  /**
   * One alternative of `binary_expression`: a left operand, the operator and
   * a right operand, grouped with the given associativity at the given
   * precedence.
   */
  datatype Alternative = Alternative(assoc: Associativity, precedence: int, op: string)

  /** One left-associative alternative per row of the table, at the value of the row's level. */
  function Alternatives(t: seq<Entry>): (alts: seq<Alternative>)
    ensures |alts| == |t|
  {
    seq(|t|, i requires 0 <= i < |t| => Alternative(Left, Value(t[i].level), t[i].op))
  }

  /** The two rows for `*` are the first and the sixteenth. */
  lemma StarRows(i: nat)
    requires i < |Table| && Table[i].op == "*"
    ensures i == 0 || i == 15
  {
    OnlyStarIsRepeated();
    if i != 0 && i != 15 {
      assert Table[0].op == Table[i].op;
    }
  }

  /**
   * The precedences at which `binary_expression` offers an operator are
   * exactly the values of the levels the table gives it.
   */
  lemma AlternativesMatchTable(op: string)
    ensures (set a | a in Alternatives(Table) && a.op == op :: a.precedence) == (set l | l in LevelsOf(op) :: Value(l))
  {
    var alts := Alternatives(Table);
    forall a | a in alts && a.op == op ensures a.precedence in (set l | l in LevelsOf(op) :: Value(l)) {
      var i :| 0 <= i < |alts| && alts[i] == a;
      assert Table[i] == Entry(op, Table[i].level);
    }
    forall l | l in LevelsOf(op) ensures Value(l) in (set a | a in alts && a.op == op :: a.precedence) {
      var i :| 0 <= i < |Table| && Table[i] == Entry(op, l);
      assert alts[i] in alts;
    }
  }

  /** `binary_expression` has one left-associative alternative per row; `*` has two, at 2 and at 12. */
  lemma BinaryExpressionAlternatives(i: nat)
    requires i < |Alternatives(Table)|
    ensures |Alternatives(Table)| == 18
    ensures Alternatives(Table)[i].assoc == Left
    ensures Alternatives(Table)[i].op == "*" ==> Alternatives(Table)[i].precedence in {2, 12}
  {
    if Alternatives(Table)[i].op == "*" {
      StarRows(i);
    }
  }
}
