/**
 * The Classmates page: a case-insensitive name search over the class list,
 * and the small display helpers of each row (presence text, last chat line,
 * avatar initials). Case mapping covers ASCII letters only.
 */
module Classmates {
  import opened Text

  datatype Presence = Online | Offline | Away

  datatype Sender = Me | Them

  datatype LastMsg = LastMsg(text: string, from: Sender)

  datatype Mate = Mate(name: string, status: Presence, lastOnline: string, lastMsg: LastMsg)

  /** The page's mock `classmates`. */
  const ClassList: seq<Mate> := [
    Mate("Ana D.", Online, "Just now", LastMsg("See you later!", Them)),
    Mate("Brian P.", Offline, "Yesterday", LastMsg("Hi", Me)),
    Mate("Cara L.", Online, "5m ago", LastMsg("Okay, thanks!", Them)),
    Mate("Diego T.", Away, "3d ago", LastMsg("You got this!", Me))
  ]

  /** `c.name.toLowerCase().includes(query.toLowerCase())`. */
  predicate NameMatches(m: Mate, query: string) {
    Includes(ToLower(m.name), ToLower(query))
  }

  /** `filtered`: the classmates whose name matches, in list order. */
  function Filtered(mates: seq<Mate>, query: string): (r: seq<Mate>)
    ensures |r| <= |mates|
    ensures forall m :: m in r <==> m in mates && NameMatches(m, query)
  {
    if mates == [] then []
    else (if NameMatches(mates[0], query) then [mates[0]] else []) + Filtered(mates[1..], query)
  }

  /** Filtering keeps order: the filter of a concatenation is the concatenation of the filters. */
  lemma {:induction false} FilteredAppend(a: seq<Mate>, b: seq<Mate>, query: string)
    ensures Filtered(a + b, query) == Filtered(a, query) + Filtered(b, query)
  {
    if a != [] {
      assert (a + b)[1..] == a[1..] + b;
      FilteredAppend(a[1..], b, query);
    } else {
      assert a + b == b;
    }
  }

  /** The name matches exactly when the lower-cased query occurs in the lower-cased name. */
  lemma NameMatchesIffOccurs(m: Mate, query: string)
    ensures NameMatches(m, query) <==> Occurs(ToLower(query), ToLower(m.name))
  {
    IncludesIffOccurs(ToLower(m.name), ToLower(query));
  }

  /** The empty query lists everyone. */
  lemma {:induction false} EmptyQueryKeepsAll(mates: seq<Mate>)
    ensures Filtered(mates, "") == mates
  {
    if mates != [] {
      EmptyQueryKeepsAll(mates[1..]);
      IncludesEmpty(ToLower(mates[0].name));
    }
  }

  /** Case does not matter: a query and its upper-case form select the same classmates. */
  lemma {:induction false} FilterIgnoresCase(mates: seq<Mate>, query: string)
    ensures Filtered(mates, ToUpper(query)) == Filtered(mates, query)
  {
    LowerOfUpper(query);
    if mates != [] {
      FilterIgnoresCase(mates[1..], query);
    }
  }

  /** "No classmates found." is shown exactly when no name matches. */
  lemma NoClassmatesRowIff(mates: seq<Mate>, query: string)
    ensures Filtered(mates, query) == [] <==> forall m :: m in mates ==> !NameMatches(m, query)
  {
    var r := Filtered(mates, query);
    if r != [] {
      assert r[0] in r;
    }
  }

  /** `presenceText`: each presence has its own caption. */
  function PresenceText(s: Presence): (r: string)
    ensures r == "Available now" <==> s == Online
    ensures r == "Away" <==> s == Away
    ensures r == "Offline" <==> s == Offline
  {
    assert |"Available now"| == 13 && |"Away"| == 4 && |"Offline"| == 7;
    match s
    case Online => "Available now"
    case Away => "Away"
    case Offline => "Offline"
  }

  /** `renderLastMsg`: the message text, prefixed with "You: " when the student sent it. */
  function RenderLastMsg(m: LastMsg): (r: string)
    ensures |r| >= |m.text| && r[|r| - |m.text|..] == m.text
    ensures m.from == Me ==> r[..|r| - |m.text|] == "You: "
    ensures m.from == Them ==> r == m.text
  {
    (if m.from == Me then "You: " else "") + m.text
  }

  /** `name.split(" ")[0]`: the name up to its first space. */
  function FirstWord(name: string): (w: string)
    ensures |w| <= |name| && w == name[..|w|]
    ensures forall i :: 0 <= i < |w| ==> w[i] != ' '
    ensures |w| < |name| ==> name[|w|] == ' '
  {
    if name == [] || name[0] == ' ' then [] else [name[0]] + FirstWord(name[1..])
  }

  /** The avatar fallback: the first two characters of the first word, upper-cased. */
  function Initials(name: string): (r: string)
    ensures |r| <= 2 && |r| <= |name|
    ensures forall i :: 0 <= i < |r| ==> r[i] == UpperChar(name[i]) && name[i] != ' '
    ensures |r| < 2 ==> |r| == |FirstWord(name)|
  {
    var w := FirstWord(name);
    ToUpper(if |w| <= 2 then w else w[..2])
  }

  lemma ClassListInitials()
    ensures Initials(ClassList[0].name) == "AN"
    ensures Initials(ClassList[3].name) == "DI"
  {
    assert FirstWord(ClassList[0].name) == "Ana";
    assert FirstWord(ClassList[3].name) == "Diego";
  }
}
