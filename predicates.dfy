/** The predicate builder of the query engine (class DB_Column in
    src/mpradb/database/db_to_sqlite.py). A column object collects SQL text
    fragments: every comparison or arithmetic operator appends one fragment
    `name op value`, `&` and `|` fold the pending fragments of two objects
    into one, and `get_sql_str` hands the single fragment to the query
    builder. The object also records every column name it has touched. */
module Predicates {
  import opened Common

  /** A Python literal that may stand on the right of an operator. */
  datatype Literal = IntLit(i: int) | FloatLit(text: string) | StrLit(s: string)

  /** `f'{v}'` / `str(v)`; a float is carried as its Python rendering. */
  function Render(l: Literal): string
  {
    match l
    case IntLit(i) => IntToString(i)
    case FloatLit(t) => t
    case StrLit(s) => s
  }

  function Quote(s: string): (r: string)
    ensures |r| == |s| + 2 && r[0] == '"' && r[|r| - 1] == '"' && r[1..|r| - 1] == s
  {
    "\"" + s + "\""
  }

  /** How `type_check` renders a literal: strings are wrapped in double
      quotes, numbers are left as they are. */
  function LiteralText(l: Literal): (r: string)
    ensures l.StrLit? ==> r == Quote(l.s)
    ensures !l.StrLit? ==> r == Render(l)
  {
    if l.StrLit? then Quote(l.s) else Render(l)
  }

  /** An operand: a literal, another column object, or a value of some other
      Python type (named by `typeName`), which `type_check` rejects. */
  datatype Operand = Value(lit: Literal) | Column(col: DbColumn) | OtherType(typeName: string)

  /** The argument of `in_`: a list, tuple or set of literals, or something
      else. */
  datatype InArgument = Items(items: seq<Literal>) | NotACollection(typeName: string)

  /** The operator symbols of `__eq__` … `__ge__` and of the arithmetic
      operators, all of which go through `return_sql_str`. */
  predicate IsOperatorSymbol(op: string)
  {
    op in ["=", "!=", "<", ">", "<=", ">=", "+", "-", "*", "/"]
  }

  /** The fragment `name op value`. */
  function Condition(name: string, op: string, value: string): string
  {
    name + " " + op + " " + value
  }

  /** What `get_sql_str` returns for a column with these pending fragments. */
  function SqlText(name: string, sqlStr: seq<string>): (r: Result<string>)
    ensures |sqlStr| > 1 <==> r.Err?
    ensures |sqlStr| == 0 ==> r == Ok(name)
    ensures |sqlStr| == 1 ==> r == Ok(sqlStr[0])
  {
    if |sqlStr| > 1 then Err("Invalid sql string")
    else if |sqlStr| == 0 then Ok(name)
    else Ok(sqlStr[0])
  }

  /** The text `in_` puts between the parentheses. */
  function InList(items: seq<Literal>): string
  {
    Join(",", seq(|items|, k requires 0 <= k < |items| => LiteralText(items[k])))
  }

  /** The list `in_` writes reads back item by item: split at the commas it
      gives each literal's text, in order, when no text holds a comma. */
  lemma InListSplit(items: seq<Literal>)
    requires |items| > 0 && forall k :: 0 <= k < |items| ==> ',' !in LiteralText(items[k])
    ensures |Split(InList(items), ',')| == |items|
    ensures forall k :: 0 <= k < |items| ==> Split(InList(items), ',')[k] == LiteralText(items[k])
  {
    var texts := seq(|items|, k requires 0 <= k < |items| => LiteralText(items[k]));
    assert [','] == ",";
    SplitJoin(',', texts);
  }

  /** `&` first parenthesises a first fragment that contains the substring
      `OR`, keeping only that fragment. */
  function ParenFirst(frags: seq<string>): (r: seq<string>)
    requires |frags| > 0
    ensures |r| >= 1
  {
    if HasSub(frags[0], "OR") then ["(" + frags[0] + ")"] else frags
  }

  /** The fragment list `a & b` leaves on `a` when `a` and `b` are two
      different objects that both have a pending fragment. */
  function AndFragments(left: seq<string>, right: seq<string>): (r: seq<string>)
    requires |left| > 0 && |right| > 0
    ensures |r| >= 2
  {
    ParenFirst(left) + ParenFirst(right)
  }

  /** The single fragment `a | b` leaves on `a`, when that succeeds. */
  function OrText(frags: seq<string>): string
  {
    Join(" OR ", frags)
  }

  function AndText(frags: seq<string>): string
  {
    Join(" AND ", frags)
  }

  class DbColumn {
    var name: string
    var sqlStr: seq<string>
    var allNames: seq<string>

    constructor (name: string)
      ensures this.name == name && sqlStr == [] && allNames == [name]
    {
      this.name := name;
      sqlStr := [];
      allNames := [name];
    }

    /** `get_sql_str`: more than one pending fragment raises, none gives
        the bare name, exactly one is returned and cleared. */
    method GetSqlStr() returns (r: Result<string>)
      modifies this
      ensures r == SqlText(old(name), old(sqlStr))
      ensures name == old(name) && allNames == old(allNames)
      ensures sqlStr == if |old(sqlStr)| == 1 then [] else old(sqlStr)
    {
      var pending := sqlStr;
      if |sqlStr| > 1 {
        r := Err("Invalid sql string");
      } else if |sqlStr| == 0 {
        r := Ok(name);
      } else {
        sqlStr := [];
        r := Ok(pending[0]);
      }
    }

    /** `type_check`: the text an operand contributes. A column operand has
        its names added to ours first and then gives up its fragment. */
    method TypeCheck(other: Operand) returns (r: Result<string>)
      modifies this, if other.Column? then {other.col} else {}
      ensures name == old(name)
      ensures other.OtherType? ==> r.Err? && unchanged(this)
      ensures other.Value? ==> r == Ok(LiteralText(other.lit)) && unchanged(this)
      ensures other.Column? ==>
        && allNames == old(allNames) + old(other.col.allNames)
        && other.col.name == old(other.col.name)
        && r == SqlText(old(other.col.name), old(other.col.sqlStr))
        && other.col.sqlStr == (if |old(other.col.sqlStr)| == 1 then [] else old(other.col.sqlStr))
        && (other.col != this ==> sqlStr == old(sqlStr) && other.col.allNames == old(other.col.allNames))
    {
      match other
      case OtherType(t) =>
        r := Err("Invalid type: " + t);
      case Value(l) =>
        r := Ok(LiteralText(l));
      case Column(c) =>
        allNames := allNames + c.allNames;
        r := c.GetSqlStr();
    }

    /** `return_sql_str`, behind every comparison and arithmetic operator:
        appends `name op value`, where the value is the operand's text. */
    method ApplyOperator(op: string, other: Operand) returns (r: Outcome)
      requires IsOperatorSymbol(op)
      modifies this, if other.Column? then {other.col} else {}
      ensures name == old(name)
      ensures other.OtherType? ==> r.Fail? && unchanged(this)
      ensures other.Value? ==>
        r.Pass? && allNames == old(allNames)
        && sqlStr == old(sqlStr) + [Condition(old(name), op, LiteralText(other.lit))]
      ensures other.Column? && other.col != this ==>
        && allNames == old(allNames) + old(other.col.allNames)
        && (r.Pass? <==> |old(other.col.sqlStr)| <= 1)
        && (r.Pass? ==> sqlStr == old(sqlStr) + [Condition(old(name), op, SqlText(old(other.col.name), old(other.col.sqlStr)).value)])
        && (r.Fail? ==> sqlStr == old(sqlStr))
    {
      var t := TypeCheck(other);
      if t.Err? {
        r := Fail(t.msg);
      } else {
        sqlStr := sqlStr + [Condition(name, op, t.value)];
        r := Pass;
      }
    }

    /** `between`: the bounds are formatted as they are, strings unquoted. */
    method Between(lower: Literal, upper: Literal)
      modifies this
      ensures name == old(name) && allNames == old(allNames)
      ensures sqlStr == old(sqlStr) + [name + " BETWEEN " + Render(lower) + " AND " + Render(upper)]
    {
      sqlStr := sqlStr + [name + " BETWEEN " + Render(lower) + " AND " + Render(upper)];
    }

    /** `like`, or `NOT LIKE` when `exclude`. */
    method Like(other: Operand, exclude: bool) returns (r: Outcome)
      modifies this, if other.Column? then {other.col} else {}
      ensures name == old(name)
      ensures other.OtherType? ==> r.Fail? && unchanged(this)
      ensures other.Value? ==>
        r.Pass? && allNames == old(allNames)
        && sqlStr == old(sqlStr) + [old(name) + (if exclude then " NOT LIKE " else " LIKE ") + LiteralText(other.lit)]
    {
      var t := TypeCheck(other);
      if t.Err? {
        r := Fail(t.msg);
      } else {
        if exclude {
          sqlStr := sqlStr + [name + " NOT LIKE " + t.value];
        } else {
          sqlStr := sqlStr + [name + " LIKE " + t.value];
        }
        r := Pass;
      }
    }

    /** `length`: later fragments and joins see `LENGTH(name)`. */
    method Length()
      modifies this
      ensures name == "LENGTH(" + old(name) + ")"
      ensures sqlStr == old(sqlStr) && allNames == old(allNames)
    {
      name := "LENGTH(" + name + ")";
    }

    /** `in_`, or `NOT IN` when `exclude`; only a list, tuple or set is
        accepted. */
    method In(other: InArgument, exclude: bool) returns (r: Outcome)
      modifies this
      ensures name == old(name) && allNames == old(allNames)
      ensures other.NotACollection? ==> r.Fail? && sqlStr == old(sqlStr)
      ensures other.Items? ==>
        r.Pass? && sqlStr == old(sqlStr) + [name + (if exclude then " NOT IN (" else " IN (") + InList(other.items) + ")"]
    {
      if other.NotACollection? {
        r := Fail("Invalid type: " + other.typeName);
      } else {
        var text := InList(other.items);
        if !exclude {
          sqlStr := sqlStr + [name + " IN (" + text + ")"];
        } else {
          sqlStr := sqlStr + [name + " NOT IN (" + text + ")"];
        }
        r := Pass;
      }
    }

    /** `__and__`. For two objects, both must have a pending fragment (an
        IndexError otherwise); a first fragment containing `OR` is
        parenthesised; the other object's fragments move over and only its
        `name` joins our names. The folded fragments become one. */
    method And(other: DbColumn) returns (r: Outcome)
      modifies this, other
      ensures name == old(name) && other.name == old(other.name)
      ensures other == this ==>
        && allNames == old(allNames)
        && (r.Pass? <==> |old(sqlStr)| >= 2)
        && sqlStr == (if r.Pass? then [AndText(old(sqlStr))] else old(sqlStr))
      ensures other != this ==>
        && (r.Pass? <==> |old(sqlStr)| > 0 && |old(other.sqlStr)| > 0)
        && (r.Pass? ==>
             && sqlStr == [AndText(AndFragments(old(sqlStr), old(other.sqlStr)))]
             && other.sqlStr == []
             && allNames == old(allNames) + [old(other.name)])
        && other.allNames == old(other.allNames)
    {
      if other != this {
        if |sqlStr| == 0 {
          return Fail("list index out of range");
        }
        if HasSub(sqlStr[0], "OR") {
          sqlStr := ["(" + sqlStr[0] + ")"];
        }
        if |other.sqlStr| == 0 {
          return Fail("list index out of range");
        }
        if HasSub(other.sqlStr[0], "OR") {
          other.sqlStr := ["(" + other.sqlStr[0] + ")"];
        }
        sqlStr := sqlStr + other.sqlStr;
        other.sqlStr := [];
        allNames := allNames + [other.name];
      }
      if |sqlStr| < 2 {
        return Fail("Must use & between two conditionals");
      }
      sqlStr := [AndText(sqlStr)];
      r := Pass;
    }

    /** `__or__`: like `&` without the parenthesising; it fails when fewer
        than two fragments are pending after the merge. */
    method Or(other: DbColumn) returns (r: Outcome)
      modifies this, other
      ensures name == old(name) && other.name == old(other.name)
      ensures other == this ==>
        && allNames == old(allNames)
        && (r.Pass? <==> |old(sqlStr)| >= 2)
        && sqlStr == (if r.Pass? then [OrText(old(sqlStr))] else old(sqlStr))
      ensures other != this ==>
        && other.sqlStr == []
        && allNames == old(allNames) + [old(other.name)]
        && other.allNames == old(other.allNames)
        && (r.Pass? <==> |old(sqlStr)| + |old(other.sqlStr)| >= 2)
        && sqlStr == (if r.Pass? then [OrText(old(sqlStr) + old(other.sqlStr))] else old(sqlStr) + old(other.sqlStr))
    {
      if other != this {
        sqlStr := sqlStr + other.sqlStr;
        other.sqlStr := [];
        allNames := allNames + [other.name];
      }
      if |sqlStr| < 2 {
        return Fail("Must use | between two conditionals");
      }
      sqlStr := [OrText(sqlStr)];
      r := Pass;
    }

    /** `__bool__`: a column object is never a truth value. */
    function AsBool(): (r: Result<bool>)
      ensures r.Err?
    {
      Err("Cannot use boolean operators with DB_Column objects")
    }
  }

  // -----------------------------------------------------------------------
  // Properties of the fragment algebra.

  lemma {:induction false} HasSubAppend(s: string, sub: string, t: string)
    requires HasSub(s, sub)
    ensures HasSub(s + t, sub)
    decreases |s|
  {
    if IsPrefix(sub, s) {
      assert (s + t)[..|sub|] == s[..|sub|];
    } else {
      assert (s + t)[1..] == s[1..] + t;
      HasSubAppend(s[1..], sub, t);
    }
  }

  lemma {:induction false} HasSubPrepend(s: string, sub: string, t: string)
    requires HasSub(s, sub)
    ensures HasSub(t + s, sub)
    decreases |t|
  {
    if |t| > 0 {
      assert (t + s)[1..] == t[1..] + s;
      HasSubPrepend(s, sub, t[1..]);
    } else {
      assert t + s == s;
    }
  }

  /** An `|` result always contains `OR`, so a later `&` parenthesises it:
      `((a == 1) | (b == 2)) & (c == 3)` gives `(a = 1 OR b = 2) AND c = 3`. */
  lemma OrThenAndParenthesises(s: string, t: string, u: string)
    requires !HasSub(u, "OR")
    ensures HasSub(OrText([s, t]), "OR")
    ensures AndText(AndFragments([OrText([s, t])], [u])) == "(" + s + " OR " + t + ") AND " + u
  {
    assert [s, t][1..] == [t];
    assert Join(" OR ", [t]) == t;
    assert Join(" OR ", [s, t]) == s + " OR " + Join(" OR ", [t]);
    assert OrText([s, t]) == s + " OR " + t;
    assert HasSub(" OR " + t, "OR") by {
      assert IsPrefix("OR", (" OR " + t)[1..]);
      assert (" OR " + t)[1..] == "OR " + t;
    }
    HasSubPrepend(" OR " + t, "OR", s);
    assert s + (" OR " + t) == s + " OR " + t;
    var p := "(" + s + " OR " + t + ")";
    assert HasSub(OrText([s, t]), "OR");
    assert "(" + OrText([s, t]) + ")" == p;
    assert ParenFirst([OrText([s, t])]) == [p];
    assert ParenFirst([u]) == [u];
    assert AndFragments([OrText([s, t])], [u]) == [p, u];
    assert [p, u][1..] == [u];
    assert Join(" AND ", [p, u]) == p + " AND " + Join(" AND ", [u]);
  }

  /** A literal string operand appears quoted in the fragment, a number as
      it is, and the fragment starts with the column name. */
  lemma ConditionShape(name: string, op: string, l: Literal)
    requires IsOperatorSymbol(op)
    ensures l.StrLit? ==> Condition(name, op, LiteralText(l)) == name + " " + op + " \"" + l.s + "\""
    ensures l.IntLit? ==> Condition(name, op, LiteralText(l)) == name + " " + op + " " + IntToString(l.i)
    ensures IsPrefix(name + " ", Condition(name, op, LiteralText(l)))
  {
    var c := Condition(name, op, LiteralText(l));
    assert c == (name + " ") + (op + " " + LiteralText(l));
    assert c[..|name + " "|] == name + " ";
  }

  /** Two single conditions without `OR` are simply joined by ` AND `. */
  lemma {:induction false} AndOfPlainConditions(s: string, t: string)
    requires !HasSub(s, "OR") && !HasSub(t, "OR")
    ensures AndText(AndFragments([s], [t])) == s + " AND " + t
  {
    assert AndFragments([s], [t]) == [s, t];
    assert [s, t][1..] == [t];
    assert Join(" AND ", [s, t]) == s + " AND " + Join(" AND ", [t]);
  }
}
