/**
 * The user table's presentation rules: avatar initials, the role badge, the status badge
 * and the avatar colour.
 */
module Users {
  import opened Wrappers
  import opened Seqs
  import opened Text

  /** The three role tiers the page distinguishes. */
  datatype RoleTier = SuperAdmin | Admin | Member

  /** A badge: the text it shows and its colour classes. */
  datatype Badge = Badge(text: string, classes: string)

  /** The first character of every non-empty part, in order; an empty part contributes nothing. */
  function Heads(parts: seq<string>): (hs: string)
    ensures |hs| <= |parts|
    ensures (forall k :: 0 <= k < |parts| ==> parts[k] != "") ==> |hs| == |parts|
    ensures forall k :: 0 <= k < |hs| ==> exists j :: 0 <= j < |parts| && parts[j] != "" && hs[k] == parts[j][0]
  {
    if parts == [] then ""
    else
      var rest := Heads(parts[1..]);
      assert forall k :: 0 <= k < |rest| ==> exists j :: 0 <= j < |parts| && parts[j] != "" && rest[k] == parts[j][0] by {
        forall k | 0 <= k < |rest| ensures exists j :: 0 <= j < |parts| && parts[j] != "" && rest[k] == parts[j][0] {
          var j :| 0 <= j < |parts[1..]| && parts[1..][j] != "" && rest[k] == parts[1..][j][0];
          assert parts[j + 1] == parts[1..][j];
        }
      }
      (if parts[0] == "" then "" else [parts[0][0]]) + rest
  }

  /** The parts that are not empty: `n[0]` of an empty part is `undefined`, which `join` drops. */
  function NonEmptyPart(): string -> bool {
    (part: string) => part != ""
  }

  /** Empty parts add no head: the heads of the parts are the heads of the non-empty parts. */
  lemma {:induction false} HeadsSkipEmpty(parts: seq<string>)
    ensures Heads(parts) == Heads(Filter(parts, NonEmptyPart()))
  {
    if parts != [] {
      var keep := NonEmptyPart();
      var p, tail := parts[0], parts[1..];
      assert parts == [p] + tail;
      HeadsSkipEmpty(tail);
      FilterCons(p, tail, keep);
      var rest := Filter(tail, keep);
      if p == "" {
        assert Keep1(p, keep) == [];
        assert Filter(parts, keep) == rest;
      } else {
        assert Keep1(p, keep) == [p];
        assert Filter(parts, keep) == [p] + rest;
        assert ([p] + rest)[1..] == rest;
      }
    }
  }

  /** The heads are the first characters of the non-empty parts, one for each, in order. */
  lemma HeadsOfWords(parts: seq<string>)
    ensures var words := Filter(parts, NonEmptyPart());
      && |Heads(parts)| == |words|
      && forall k :: 0 <= k < |words| ==> words[k] != "" && Heads(parts)[k] == words[k][0]
  {
    var words := Filter(parts, NonEmptyPart());
    assert forall k :: 0 <= k < |words| ==> words[k] != "" by {
      forall k | 0 <= k < |words| ensures words[k] != "" {
        assert words[k] in words;
      }
    }
    HeadsSkipEmpty(parts);
    HeadsOfNonEmpty(words);
  }

  /** The words of a name: the non-empty parts of its split at single spaces, in order. */
  function Words(name: string): seq<string> {
    Filter(Split(name, ' '), NonEmptyPart())
  }

  /**
   * The avatar fallback: the name split at single spaces, and the first character of each
   * non-empty part, in order.
   */
  function Initials(name: string): (r: string)
    ensures var words := Words(name);
      && |r| == |words|
      && forall k :: 0 <= k < |words| ==> words[k] != "" && r[k] == words[k][0]
    ensures ' ' !in r
  {
    var parts := Split(name, ' ');
    var r := Heads(parts);
    HeadsOfWords(parts);
    assert ' ' !in r by {
      forall k | 0 <= k < |r| ensures r[k] != ' ' {
        var j :| 0 <= j < |parts| && parts[j] != "" && r[k] == parts[j][0];
        assert parts[j][0] in parts[j];
      }
    }
    r
  }

  /** Names with the same words have the same initials. */
  lemma SameWordsSameInitials(n1: string, n2: string)
    requires Words(n1) == Words(n2)
    ensures Initials(n1) == Initials(n2)
  {
  }

  /** The empty name has no words. */
  lemma WordsOfEmpty()
    ensures Words("") == []
  {
    assert Split("", ' ') == [""];
  }

  /** The words on either side of a space are the words of the whole, in order. */
  lemma WordsAroundSpace(a: string, b: string)
    ensures Words(a + " " + b) == Words(a) + Words(b)
  {
    SplitConcat(a, b, ' ');
    FilterAppend(Split(a, ' '), Split(b, ' '), NonEmptyPart());
  }

  /** A name of words joined by single spaces has one initial per word: the word's first letter. */
  lemma InitialsOfWords(words: seq<string>)
    requires |words| >= 1
    requires forall k :: 0 <= k < |words| ==> words[k] != "" && ' ' !in words[k]
    ensures |Initials(Join(words, " "))| == |words|
    ensures forall k :: 0 <= k < |words| ==> Initials(Join(words, " "))[k] == words[k][0]
  {
    SplitJoin(words, ' ');
    assert Split(Join(words, " "), ' ') == words;
    HeadsOfNonEmpty(words);
  }

  /** Over non-empty parts, the heads are exactly the parts' first characters. */
  lemma {:induction false} HeadsOfNonEmpty(parts: seq<string>)
    requires forall k :: 0 <= k < |parts| ==> parts[k] != ""
    ensures forall k :: 0 <= k < |parts| ==> Heads(parts)[k] == parts[k][0]
  {
    if parts != [] {
      HeadsOfNonEmpty(parts[1..]);
      assert Heads(parts) == [parts[0][0]] + Heads(parts[1..]);
    }
  }

  /**
   * A space at the start or the end of the name, or next to another space, only adds an empty
   * part, and so no initial.
   */
  lemma SpaceAtEdgeAddsNoInitial(a: string, b: string)
    requires a == "" || b == "" || a[|a| - 1] == ' ' || b[0] == ' '
    ensures Initials(a + " " + b) == Initials(a + b)
  {
    SpaceAtEdgeAddsNoWord(a, b);
    SameWordsSameInitials(a + " " + b, a + b);
  }

  /** Such a space adds no word. */
  lemma SpaceAtEdgeAddsNoWord(a: string, b: string)
    requires a == "" || b == "" || a[|a| - 1] == ' ' || b[0] == ' '
    ensures Words(a + " " + b) == Words(a + b)
  {
    if a == "" || b == "" {
      SpaceAtEndAddsNoWord(a, b);
    } else if a[|a| - 1] == ' ' {
      var a' := a[..|a| - 1];
      assert a == a' + " ";
      SpaceAfterSpaceAddsNoWord(a', b);
    } else {
      var b' := b[1..];
      assert b == " " + b';
      assert a + " " + b == (a + " ") + " " + b' && a + b == (a + " ") + b';
      SpaceAfterSpaceAddsNoWord(a, b');
    }
  }

  /** A space at the start or the end adds no word. */
  lemma SpaceAtEndAddsNoWord(a: string, b: string)
    requires a == "" || b == ""
    ensures Words(a + " " + b) == Words(a + b)
  {
    WordsAroundSpace(a, b);
    WordsOfEmpty();
    if a == "" {
      assert a + b == b;
      assert Words(a + " " + b) == [] + Words(b);
    } else {
      assert a + b == a;
      assert Words(a + " " + b) == Words(a) + [];
    }
  }

  /** A second space after a space adds no word. */
  lemma SpaceAfterSpaceAddsNoWord(a: string, b: string)
    ensures Words(a + " " + " " + b) == Words(a + " " + b)
  {
    var a1 := a + " ";
    assert a + " " + " " + b == a1 + " " + b;
    assert a1 == a + " " + "";
    calc {
      Words(a1 + " " + b);
      { WordsAroundSpace(a1, b); }
      Words(a1) + Words(b);
      { WordsAroundSpace(a, ""); WordsOfEmpty(); }
      Words(a) + [] + Words(b);
      Words(a) + Words(b);
      { WordsAroundSpace(a, b); }
      Words(a + " " + b);
    }
  }

  /** A run of extra spaces anywhere in the name adds empty parts and no initial. */
  lemma ExtraSpaceAddsNoInitial(a: string, b: string)
    ensures Initials(a + " " + " " + b) == Initials(a + " " + b)
  {
    SpaceAfterSpaceAddsNoWord(a, b);
    SameWordsSameInitials(a + " " + " " + b, a + " " + b);
  }

  /** `super_admin` and `admin` are their own tiers; every other role is an ordinary user. */
  function TierOf(role: string): (t: RoleTier)
    ensures t == SuperAdmin <==> role == "super_admin"
    ensures t == Admin <==> role == "admin"
  {
    if role == "super_admin" then SuperAdmin
    else if role == "admin" then Admin
    else Member
  }

  /** The text colour that marks each tier, shared by the badge and the avatar. */
  function TierTextColour(t: RoleTier): string {
    match t
    case SuperAdmin => "text-red-600"
    case Admin => "text-amber-600"
    case Member => "text-blue-600"
  }

  /** The role badge. */
  function RoleBadge(role: string): (b: Badge)
    ensures b.text == "Super Admin" <==> role == "super_admin"
    ensures b.text == "Admin" <==> role == "admin"
    ensures b.text == "User" <==> role != "super_admin" && role != "admin"
  {
    BadgeOfTier(TierOf(role))
  }

  /** The badge of each tier; its text colour is the tier's. */
  function BadgeOfTier(t: RoleTier): Badge {
    match t
    case SuperAdmin => Badge("Super Admin", "bg-red-50 " + TierTextColour(t) + " hover:bg-red-100 gap-1")
    case Admin => Badge("Admin", "bg-amber-50 " + TierTextColour(t) + " hover:bg-amber-100 gap-1")
    case Member => Badge("User", "bg-blue-50 " + TierTextColour(t) + " hover:bg-blue-100 gap-1")
  }

  /** The avatar fallback's colour classes, chosen by the same role tests as the badge. */
  function AvatarClasses(role: string): string {
    if role == "super_admin" then "bg-red-100 " + "text-red-600"
    else if role == "admin" then "bg-amber-100 " + "text-amber-600"
    else "bg-blue-100 " + "text-blue-600"
  }

  /** The avatar and the badge split roles the same way. */
  lemma AvatarMatchesBadge(r1: string, r2: string)
    ensures AvatarClasses(r1) == AvatarClasses(r2) <==> RoleBadge(r1) == RoleBadge(r2)
  {
  }

  /** The avatar and the badge of a role carry that role tier's text colour. */
  lemma AvatarAndBadgeShareColour(role: string)
    ensures Includes(AvatarClasses(role), TierTextColour(TierOf(role)))
    ensures Includes(RoleBadge(role).classes, TierTextColour(TierOf(role)))
  {
    var t := TierOf(role);
    match t
    case SuperAdmin =>
      IncludesSuffix("bg-red-100 ", TierTextColour(t));
      IncludesMiddle("bg-red-50 ", TierTextColour(t), " hover:bg-red-100 gap-1");
    case Admin =>
      IncludesSuffix("bg-amber-100 ", TierTextColour(t));
      IncludesMiddle("bg-amber-50 ", TierTextColour(t), " hover:bg-amber-100 gap-1");
    case Member =>
      IncludesSuffix("bg-blue-100 ", TierTextColour(t));
      IncludesMiddle("bg-blue-50 ", TierTextColour(t), " hover:bg-blue-100 gap-1");
  }

  /** The status badge: one of three known statuses, or no badge at all. */
  function StatusBadge(status: string): (b: Option<Badge>)
    ensures b.Some? <==> status in {"active", "inactive", "pending"}
  {
    if status == "active" then Some(Badge("Active", "bg-green-50 text-green-600 hover:bg-green-100"))
    else if status == "inactive" then Some(Badge("Inactive", "bg-gray-50 text-gray-600 hover:bg-gray-100"))
    else if status == "pending" then Some(Badge("Pending", "bg-amber-50 text-amber-600 hover:bg-amber-100"))
    else None
  }

  /** A badge names its status: the same word with the first letter capitalised. */
  lemma StatusBadgeNamesStatus(status: string)
    requires StatusBadge(status).Some?
    ensures var text := StatusBadge(status).value.text;
      |text| == |status| > 0 && text[1..] == status[1..] && LowerChar(text[0]) == status[0] && text[0] != status[0]
  {
  }

  /** Different statuses never share a badge text. */
  lemma StatusBadgesDiffer(s1: string, s2: string)
    requires StatusBadge(s1).Some? && StatusBadge(s2).Some? && s1 != s2
    ensures StatusBadge(s1).value.text != StatusBadge(s2).value.text
  {
  }
}
