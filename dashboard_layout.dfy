/** The dashboard frame: the name and initials shown for the signed-in
    account, the navigation list with its active-item rule, and the sidebar's
    open/closed flag. */
module DashboardLayout {
  import opened Text

  // ------------------------------------------------------------ user section

  /** What the layout reads from the signed-in account: the display name
      from its metadata and its e-mail address, each possibly absent. */
  datatype Account = Account(displayName: Option<string>, email: Option<string>)

  /** `s.split('@')[0]`: everything before the first `@`, or all of `s`. */
  function LocalPart(email: string): (r: string)
  {
    Split(email, '@')[0]
  }

  /** The name shown: the display name when it is set and not empty, else the
      part of the e-mail address before its first `@` when that is not empty,
      else "User". */
  function DisplayName(user: Option<Account>): (name: string)
    ensures name != ""
  {
    if user.Some? && user.value.displayName.Some? && user.value.displayName.value != "" then
      user.value.displayName.value
    else if user.Some? && user.value.email.Some? && LocalPart(user.value.email.value) != "" then
      LocalPart(user.value.email.value)
    else
      "User"
  }

  /** The local part is the longest prefix of the address without an `@`:
      it is a prefix, holds no `@`, and is followed by an `@` or by nothing. */
  lemma LocalPartMeaning(email: string)
    ensures var r := LocalPart(email);
      r <= email && '@' !in r
      && (|r| < |email| ==> email[|r|] == '@')
  {
    SplitFirst(email, '@');
  }

  /** The three sources of the name, in order of preference: a set display
      name wins; otherwise a non-empty beginning of the address up to its
      first `@`; otherwise "User". */
  lemma DisplayNameMeaning(user: Option<Account>)
    ensures var name := DisplayName(user);
      var named := user.Some? && user.value.displayName.Some? && user.value.displayName.value != "";
      var mailed := user.Some? && user.value.email.Some? && LocalPart(user.value.email.value) != "";
      (named ==> name == user.value.displayName.value)
      && (!named && mailed ==>
            name <= user.value.email.value && '@' !in name
            && (|name| < |user.value.email.value| ==> user.value.email.value[|name|] == '@'))
      && (!named && !mailed ==> name == "User")
  {
    if user.Some? && user.value.email.Some? {
      LocalPartMeaning(user.value.email.value);
    }
  }

  /** `words.map(n => n[0]).join('')`: the first character of every word; an
      empty word gives `undefined`, which the join writes as nothing. */
  function FirstChars(words: seq<string>): string
  {
    if words == [] then ""
    else (if words[0] == "" then "" else [words[0][0]]) + FirstChars(words[1..])
  }

  /** `s.slice(0, 2)`. */
  function FirstTwo(s: string): (r: string)
  {
    s[..Min(2, |s|)]
  }

  /** The avatar text: the upper-cased first characters of the name's
      space-separated words, at most two of them. */
  function Initials(name: string): (r: string)
    ensures |r| <= 2
  {
    FirstTwo(Upper(FirstChars(Split(name, ' '))))
  }

  /** An independent reading of the same characters: those of `s` that are not
      a space and stand first or right after a space. `atStart` says whether the
      character before `s` was a space (or there was none). */
  function WordStartsFrom(s: string, atStart: bool): string
  {
    if s == [] then ""
    else if s[0] == ' ' then WordStartsFrom(s[1..], true)
    else (if atStart then [s[0]] else "") + WordStartsFrom(s[1..], false)
  }

  function WordStarts(s: string): string
  {
    WordStartsFrom(s, true)
  }

  /** A run without spaces contributes at most its first character. */
  lemma {:induction false} WordStartsOfRun(u: string, v: string, atStart: bool)
    requires ' ' !in u
    ensures WordStartsFrom(u + v, atStart)
         == (if u != [] && atStart then [u[0]] else "") + WordStartsFrom(v, atStart && u == [])
    decreases |u|
  {
    if u != [] {
      assert u[0] in u;
      assert (u + v)[0] == u[0];
      assert (u + v)[1..] == u[1..] + v;
      WordStartsOfRun(u[1..], v, false);
      assert WordStartsFrom(u[1..] + v, false) == WordStartsFrom(v, false);
    } else {
      assert u + v == v;
    }
  }

  /** The chain over a split whose first part is `u`. */
  lemma FirstCharsCons(u: string, parts: seq<string>)
    ensures FirstChars([u] + parts) == (if u == "" then "" else [u[0]]) + FirstChars(parts)
  {
    assert ([u] + parts)[1..] == parts;
  }

  /** The first-character chain over the parts around the first space. */
  lemma FirstCharsAtSpace(s: string)
    requires ' ' in s
    ensures var i := FirstIndexOf(s, ' ');
      FirstChars(Split(s, ' ')) == (if i == 0 then "" else [s[0]]) + FirstChars(Split(s[i + 1..], ' '))
  {
    var i := FirstIndexOf(s, ' ');
    var u, parts := s[..i], Split(s[i + 1..], ' ');
    assert Split(s, ' ') == [u] + parts;
    FirstCharsCons(u, parts);
    assert (if u == "" then "" else [u[0]]) == (if i == 0 then "" else [s[0]]) by {
      assert |u| == i;
    }
  }

  /** The word starts around the first space at `i`. */
  lemma WordStartsAtSpace(s: string, i: nat)
    requires i < |s| && s[i] == ' ' && ' ' !in s[..i]
    ensures WordStarts(s) == (if i == 0 then "" else [s[0]]) + WordStarts(s[i + 1..])
  {
    var u, rest := s[..i], s[i + 1..];
    assert s == u + ([' '] + rest);
    WordStartsOfRun(u, [' '] + rest, true);
    assert ([' '] + rest)[1..] == rest;
  }

  /** The split-map-join chain picks exactly the word-start characters. */
  lemma {:induction false} FirstCharsAreWordStarts(s: string)
    ensures FirstChars(Split(s, ' ')) == WordStarts(s)
    decreases |s|
  {
    if ' ' !in s {
      assert WordStarts(s) == (if s == "" then "" else [s[0]]) by {
        WordStartsOfRun(s, "", true);
        assert s + "" == s;
      }
      assert FirstChars(Split(s, ' ')) == (if s == "" then "" else [s[0]]) by {
        assert Split(s, ' ') == [s];
        FirstCharsCons(s, []);
      }
    } else {
      var i := FirstIndexOf(s, ' ');
      FirstCharsAreWordStarts(s[i + 1..]);
      FirstCharsAtSpace(s);
      WordStartsAtSpace(s, i);
    }
  }

  /** The initials are the first two word-start characters of the name,
      upper-cased; a name that starts with a non-space character leads with
      that character. */
  lemma InitialsMeaning(name: string)
    ensures var w := WordStarts(name);
      Initials(name) == Upper(w[..Min(2, |w|)])
    ensures name != "" && name[0] != ' ' ==> Initials(name) != "" && Initials(name)[0] == UpperChar(name[0])
  {
    FirstCharsAreWordStarts(name);
    if name != "" && name[0] != ' ' {
      assert name == [name[0]] + name[1..];
      WordStartsOfRun([name[0]], name[1..], true);
    }
  }

  /** An account with neither a display name nor an address shows "User" with
      the initial "U". */
  lemma AnonymousInitials()
    ensures DisplayName(None) == "User" && Initials(DisplayName(None)) == "U"
  {
    InitialsMeaning("User");
    assert WordStarts("User") == "U" by {
      WordStartsOfRun("User", "", true);
      assert "User" + "" == "User";
    }
  }

  // ------------------------------------------------------------- navigation

  datatype NavItem = NavItem(name: string, href: string)

  /** The sidebar's links, in display order. */
  const Navigation: seq<NavItem> := [
    NavItem("Dashboard", "/dashboard"),
    NavItem("Friends", "/dashboard/friends"),
    NavItem("Activities", "/dashboard/activities"),
    NavItem("Rewards", "/dashboard/rewards"),
    NavItem("Settings", "/dashboard/settings")
  ]

  /** A link is highlighted when the current path is exactly its target. */
  predicate IsActive(pathname: string, item: NavItem)
  {
    pathname == item.href
  }

  /** The positions of the highlighted links. */
  function ActiveItems(pathname: string): set<nat>
  {
    set i: nat | i < |Navigation| && IsActive(pathname, Navigation[i])
  }

  /** No two links share a target. */
  lemma HrefsDistinct()
    ensures forall i, j :: 0 <= i < j < |Navigation| ==> Navigation[i].href != Navigation[j].href
  {
  }

  /** At most one link is highlighted: link `i` alone when the path is its
      target, and none when the path is no link's target, a sub-page included. */
  lemma ActiveItemsMeaning(pathname: string)
    ensures forall i :: 0 <= i < |Navigation| && Navigation[i].href == pathname ==> ActiveItems(pathname) == {i}
    ensures (forall i :: 0 <= i < |Navigation| ==> Navigation[i].href != pathname) ==> ActiveItems(pathname) == {}
  {
    HrefsDistinct();
  }

  /** The activity history page lies under the activities link but highlights
      nothing. */
  lemma HistoryPageHighlightsNothing()
    ensures ActiveItems("/dashboard/activities/history") == {}
  {
    ActiveItemsMeaning("/dashboard/activities/history");
  }

  // ---------------------------------------------------------------- sidebar

  /** What the user can click that changes the sidebar or the page: the menu
      button, the overlay, the sidebar's close button, or link `i`. */
  datatype LayoutEvent = MenuButton | Overlay | CloseButton | FollowLink(i: nat)

  /** The layout's state: whether the sidebar is open, and the current path. */
  datatype Layout = Layout(sidebarOpen: bool, pathname: string)

  /** The menu button opens the sidebar; the overlay, the close button and a
      link close it, and a link also moves to its target. */
  function Step(l: Layout, e: LayoutEvent): Layout
    requires e.FollowLink? ==> e.i < |Navigation|
  {
    match e
    case MenuButton => l.(sidebarOpen := true)
    case Overlay => l.(sidebarOpen := false)
    case CloseButton => l.(sidebarOpen := false)
    case FollowLink(i) => Layout(false, Navigation[i].href)
  }

  predicate ValidEvents(es: seq<LayoutEvent>)
  {
    forall k :: 0 <= k < |es| ==> (es[k].FollowLink? ==> es[k].i < |Navigation|)
  }

  /** The layout after a run of clicks, starting from `l`. */
  function Run(l: Layout, es: seq<LayoutEvent>): Layout
    requires ValidEvents(es)
    decreases |es|
  {
    if es == [] then l else Run(Step(l, es[0]), es[1..])
  }

  /** One click: only the menu button leaves the sidebar open; only a link
      changes the path, and then exactly that link is highlighted. */
  lemma StepMeaning(l: Layout, e: LayoutEvent)
    requires e.FollowLink? ==> e.i < |Navigation|
    ensures Step(l, e).sidebarOpen <==> e == MenuButton
    ensures !e.FollowLink? ==> Step(l, e).pathname == l.pathname
    ensures e.FollowLink? ==> ActiveItems(Step(l, e).pathname) == {e.i}
  {
    if e.FollowLink? {
      ActiveItemsMeaning(Navigation[e.i].href);
    }
  }

  /** After any run of clicks the sidebar is open exactly when the last click
      was the menu button, or, with no clicks, when it was open before. */
  lemma {:induction false} RunSidebar(l: Layout, es: seq<LayoutEvent>)
    requires ValidEvents(es)
    ensures Run(l, es).sidebarOpen <==> (if es == [] then l.sidebarOpen else es[|es| - 1] == MenuButton)
    decreases |es|
  {
    if es != [] {
      StepMeaning(l, es[0]);
      var rest := es[1..];
      assert ValidEvents(rest) by {
        forall k | 0 <= k < |rest| ensures (rest[k].FollowLink? ==> rest[k].i < |Navigation|) {
          assert rest[k] == es[k + 1];
        }
      }
      RunSidebar(Step(l, es[0]), rest);
      if rest != [] {
        assert rest[|rest| - 1] == es[|es| - 1];
      }
    }
  }

  /** The layout starts with the sidebar closed. */
  function Initial(pathname: string): (l: Layout)
    ensures !l.sidebarOpen && l.pathname == pathname
  {
    Layout(false, pathname)
  }

  /** The mounted layout: the `sidebarOpen` flag it keeps and the path the
      router reports. */
  class Frame {
    var sidebarOpen: bool
    var pathname: string

    function State(): Layout
      reads this
    {
      Layout(sidebarOpen, pathname)
    }

    constructor(pathname: string)
      ensures State() == Initial(pathname)
    {
      sidebarOpen := false;
      this.pathname := pathname;
    }

    /** The `onClick` handlers of the menu button, the overlay, the close
        button and the links. */
    method Click(e: LayoutEvent)
      requires e.FollowLink? ==> e.i < |Navigation|
      modifies this
      ensures State() == Step(old(State()), e)
    {
      match e
      case MenuButton => sidebarOpen := true;
      case Overlay => sidebarOpen := false;
      case CloseButton => sidebarOpen := false;
      case FollowLink(i) =>
        sidebarOpen := false;
        pathname := Navigation[i].href;
    }
  }
}
