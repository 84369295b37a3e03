/**
 * The dashboard page: its class-name joiner `cn`, the recent-activity badges and the
 * monthly-sales bars.
 */
module Dashboard {
  import opened Text

  /** An argument of `cn`: a string, `undefined`, `null` or `false`. */
  datatype ClassValue = Str(s: string) | Undefined | Null | False

  /** JavaScript truthiness of an argument: only a non-empty string is truthy. */
  predicate Truthy(v: ClassValue) {
    v.Str? && v.s != ""
  }

  /** The strings of the truthy arguments, in argument order (`inputs.filter(Boolean)`). */
  function Kept(args: seq<ClassValue>): seq<string>
  {
    if args == [] then []
    else KeptOne(args[0]) + Kept(args[1..])
  }

  /** The contribution of one argument: its string when truthy, nothing otherwise. */
  function KeptOne(v: ClassValue): seq<string> {
    if Truthy(v) then [v.s] else []
  }

  /** A string is kept exactly when it is a non-empty string argument. */
  lemma {:induction false} KeptMembers(args: seq<ClassValue>)
    ensures forall s :: s in Kept(args) <==> Str(s) in args && s != ""
  {
    if args != [] {
      KeptMembers(args[1..]);
      assert args == [args[0]] + args[1..];
    }
  }

  /** Nothing is kept exactly when every argument is falsy; every kept string is non-empty. */
  lemma {:induction false} KeptShape(args: seq<ClassValue>)
    ensures forall k :: 0 <= k < |Kept(args)| ==> Kept(args)[k] != ""
    ensures |Kept(args)| <= |args|
    ensures Kept(args) == [] <==> forall v :: v in args ==> !Truthy(v)
  {
    if args != [] {
      KeptShape(args[1..]);
      assert args == [args[0]] + args[1..];
    }
  }

  /** Keeping from a list with a given first argument. */
  lemma KeptCons(v: ClassValue, rest: seq<ClassValue>)
    ensures Kept([v] + rest) == KeptOne(v) + Kept(rest)
  {
    assert ([v] + rest)[1..] == rest;
  }

  /** Keeping distributes over concatenation of argument lists. */
  lemma {:induction false} KeptAppend(a: seq<ClassValue>, b: seq<ClassValue>)
    ensures Kept(a + b) == Kept(a) + Kept(b)
  {
    if a == [] {
      assert a + b == b;
    } else {
      var x, rest := a[0], a[1..];
      assert a == [x] + rest;
      assert a + b == [x] + (rest + b);
      calc {
        Kept(a + b);
        { KeptCons(x, rest + b); }
        KeptOne(x) + Kept(rest + b);
        { KeptAppend(rest, b); }
        KeptOne(x) + (Kept(rest) + Kept(b));
        (KeptOne(x) + Kept(rest)) + Kept(b);
        { KeptCons(x, rest); }
        Kept(a) + Kept(b);
      }
    }
  }

  /** `cn(...inputs)`: the truthy arguments joined by single spaces. */
  function Cn(args: seq<ClassValue>): (r: string)
    ensures r == "" <==> forall v :: v in args ==> !Truthy(v)
  {
    var parts := Kept(args);
    KeptShape(args);
    assert parts != [] ==> Join(parts, " ") != "" by {
      if parts != [] {
        JoinStartsWithFirst(parts, " ");
      }
    }
    Join(parts, " ")
  }

  /** A join starts with its first part. */
  lemma JoinStartsWithFirst(parts: seq<string>, sep: string)
    requires parts != []
    ensures parts[0] <= Join(parts, sep)
  {
  }

  /** A falsy argument anywhere in the list is dropped. */
  lemma KeptIgnoresFalsy(a: seq<ClassValue>, v: ClassValue, b: seq<ClassValue>)
    requires !Truthy(v)
    ensures Kept(a + [v] + b) == Kept(a + b)
  {
    assert Kept([v]) == [] by {
      assert [v][1..] == [];
    }
    calc {
      Kept(a + [v] + b);
      { KeptAppend(a + [v], b); }
      Kept(a + [v]) + Kept(b);
      { KeptAppend(a, [v]); }
      Kept(a) + Kept(b);
      { KeptAppend(a, b); }
      Kept(a + b);
    }
  }

  /** A falsy argument anywhere in the list changes nothing. */
  lemma CnIgnoresFalsy(a: seq<ClassValue>, v: ClassValue, b: seq<ClassValue>)
    requires !Truthy(v)
    ensures Cn(a + [v] + b) == Cn(a + b)
  {
    KeptIgnoresFalsy(a, v, b);
  }

  /** Two non-empty strings are joined with one space between them. */
  lemma CnOfTwo(x: string, y: string)
    requires x != "" && y != ""
    ensures Cn([Str(x), Str(y)]) == x + " " + y
  {
    assert [Str(x), Str(y)][1..] == [Str(y)];
    assert Kept([Str(y)]) == [y] by {
      assert [Str(y)][1..] == [];
    }
    assert Kept([Str(x), Str(y)]) == [x, y];
    assert [x, y][1..] == [y];
  }

  /** When the kept classes contain no spaces, splitting the result at spaces gives them back. */
  lemma CnSplitsBack(args: seq<ClassValue>)
    requires exists v :: v in args && Truthy(v)
    requires forall v :: v in args && v.Str? ==> ' ' !in v.s
    ensures Split(Cn(args), ' ') == Kept(args)
  {
    var parts := Kept(args);
    KeptShape(args);
    KeptMembers(args);
    forall k | 0 <= k < |parts| ensures ' ' !in parts[k] {
      assert parts[k] in parts;
    }
    SplitJoin(parts, ' ');
  }

  /** The three kinds of activity the page tells apart. */
  datatype ActivityKind = Transfer | Restock | OtherActivity

  /** The icon shown for an activity. */
  datatype Icon = ArrowRight | PackageIcon | StoreIcon

  /** `transfer` and `restock` are their own kinds; every other type is grouped together. */
  function KindOf(activityType: string): (k: ActivityKind)
    ensures k == Transfer <==> activityType == "transfer"
    ensures k == Restock <==> activityType == "restock"
  {
    if activityType == "transfer" then Transfer
    else if activityType == "restock" then Restock
    else OtherActivity
  }

  /** The icon circle's colour classes, decided by the same two type tests. */
  function KindClasses(activityType: string): string {
    Cn([Str("p-2 rounded-full flex-shrink-0"),
        Str(if activityType == "transfer" then "bg-blue-50 text-blue-500"
            else if activityType == "restock" then "bg-green-50 text-green-500"
            else "bg-amber-50 text-amber-500")])
  }

  /** The icon, decided by the same two type tests. */
  function KindIcon(activityType: string): Icon {
    if activityType == "transfer" then ArrowRight
    else if activityType == "restock" then PackageIcon
    else StoreIcon
  }

  /** The icon and the colour follow the kind: two activities get the same icon exactly when
    * they get the same colour, exactly when they have the same kind. */
  lemma KindDecidesIconAndColour(t1: string, t2: string)
    ensures KindIcon(t1) == KindIcon(t2) <==> KindOf(t1) == KindOf(t2)
    ensures KindClasses(t1) == KindClasses(t2) <==> KindOf(t1) == KindOf(t2)
  {
    var base := "p-2 rounded-full flex-shrink-0";
    var c1 := if t1 == "transfer" then "bg-blue-50 text-blue-500" else if t1 == "restock" then "bg-green-50 text-green-500" else "bg-amber-50 text-amber-500";
    var c2 := if t2 == "transfer" then "bg-blue-50 text-blue-500" else if t2 == "restock" then "bg-green-50 text-green-500" else "bg-amber-50 text-amber-500";
    CnOfTwo(base, c1);
    CnOfTwo(base, c2);
    if KindClasses(t1) == KindClasses(t2) {
      assert (base + " " + c1)[|base| + 1..] == c1;
      assert (base + " " + c2)[|base| + 1..] == c2;
    }
  }

  /** The status badge's text: "Completed" for `completed`, "In Progress" for anything else. */
  function StatusLabel(status: string): (text: string)
    ensures text == "Completed" <==> status == "completed"
    ensures text == "In Progress" <==> status != "completed"
  {
    if status == "completed" then "Completed" else "In Progress"
  }

  /** The status badge's colour: green when completed, amber otherwise. */
  function StatusColour(status: string): (c: string)
    ensures c == "bg-green-50 text-green-600" <==> status == "completed"
  {
    if status == "completed" then "bg-green-50 text-green-600" else "bg-amber-50 text-amber-600"
  }

  /** A green badge always says "Completed" and an amber one always says "In Progress". */
  lemma StatusColourMatchesLabel(status: string)
    ensures StatusColour(status) == "bg-green-50 text-green-600" <==> StatusLabel(status) == "Completed"
  {
  }

  /** The width of a sales bar, in percent: 40 plus four times the change percentage. */
  function BarWidth(percentage: real): (w: real)
    ensures (w - 40.0) / 4.0 == percentage
  {
    40.0 + percentage * 4.0
  }

  /** Wider bars mean larger changes, and a bar stays within its track exactly for changes of 0 to 15 percent. */
  lemma BarWidthOrder(p: real, q: real)
    ensures p < q <==> BarWidth(p) < BarWidth(q)
    ensures 40.0 <= BarWidth(p) <= 100.0 <==> 0.0 <= p <= 15.0
  {
  }

  /** The sign before the percentage, and the colour of the arrow, text and bar. */
  datatype TrendStyle = TrendStyle(sign: string, textColour: string, barColour: string)

  /** An upward trend is green with "+"; any other trend is red with "-". */
  function TrendStyleOf(trend: string): (st: TrendStyle)
    ensures st.sign == "+" <==> trend == "up"
    ensures st.sign == "-" <==> trend != "up"
  {
    if trend == "up" then TrendStyle("+", "text-green-500", "bg-green-500")
    else TrendStyle("-", "text-red-500", "bg-red-500")
  }

  /** The bar's colour and the label's colour never disagree with the sign. */
  lemma TrendStyleAgrees(trend: string)
    ensures TrendStyleOf(trend).barColour == "bg-green-500" <==> TrendStyleOf(trend).sign == "+"
    ensures TrendStyleOf(trend).textColour == "text-green-500" <==> TrendStyleOf(trend).sign == "+"
  {
  }
}
