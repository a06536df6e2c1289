/**
 * The main layout's navigation and user badge: how the configured links are grouped into
 * sections, and the display name and initials shown for the signed-in user.
 */
module MainLayout {
  import opened Wrappers
  import opened Text
  import Sequences

  /** A configured navigation link (the label is called caption here). */
  datatype NavLink = NavLink(path: string, icon: Option<string>, caption: string)
  datatype NavSection = NavSection(title: string, items: seq<NavLink>)

  const MainPaths: seq<string> := ["/", "/wizard", "/plan", "/resources", "/journal", "/insurance", "/insurance/quick", "/purchase"]
  const SystemPaths: seq<string> := ["/systeminfo", "/last-ned"]
  const AuthPaths: seq<string> := ["/login", "/register"]
  const ProfilePath: string := "/me"
  const SignedOutName: string := "Ikke pålogget"
  const NoInitials: string := "--"

  predicate HasPath(links: seq<NavLink>, path: string) {
    exists i :: 0 <= i < |links| && links[i].path == path
  }

  /** Index of the first link with the path, |links| when there is none. */
  function FindIndex(links: seq<NavLink>, path: string): (k: nat)
    ensures k <= |links|
    ensures k < |links| ==> links[k].path == path
    ensures forall i :: 0 <= i < k ==> links[i].path != path
  {
    if links == [] then 0 else if links[0].path == path then 0 else 1 + FindIndex(links[1..], path)
  }

  /** navLinks.find(l => l.path === path). */
  function Find(links: seq<NavLink>, path: string): (r: Option<NavLink>)
    ensures r.None? <==> !HasPath(links, path)
    ensures r.Some? ==> r.value.path == path && r.value == links[FindIndex(links, path)]
  {
    var k := FindIndex(links, path);
    if k < |links| then Some(links[k]) else None
  }

  /** The wanted paths some link has, in the wanted order: the reference for a section's items. */
  function PresentPaths(links: seq<NavLink>, paths: seq<string>): (r: seq<string>)
    ensures forall i :: 0 <= i < |r| ==> r[i] in paths && HasPath(links, r[i])
    ensures forall p :: p in paths && HasPath(links, p) ==> p in r
  {
    if paths == [] then []
    else (if HasPath(links, paths[0]) then [paths[0]] else []) + PresentPaths(links, paths[1..])
  }

  /**
   * [find(p1), find(p2), ...].filter(Boolean): for every wanted path some link has, in the wanted
   * order, the first link with that path.
   */
  function Pick(links: seq<NavLink>, paths: seq<string>): (r: seq<NavLink>)
    ensures |r| == |PresentPaths(links, paths)|
    ensures forall i :: 0 <= i < |r| ==> r[i].path == PresentPaths(links, paths)[i] && Find(links, r[i].path) == Some(r[i])
  {
    if paths == [] then []
    else
      var first := Find(links, paths[0]);
      (if first.Some? then [first.value] else []) + Pick(links, paths[1..])
  }

  /** navLinks.filter(l => paths.includes(l.path)): every matching link, duplicates and order kept. */
  function Filter(links: seq<NavLink>, paths: seq<string>): (r: seq<NavLink>)
    ensures |r| <= |links|
    ensures forall i :: 0 <= i < |r| ==> r[i] in links && r[i].path in paths
    ensures forall l :: l in links && l.path in paths ==> l in r
  {
    if links == [] then []
    else (if links[0].path in paths then [links[0]] else []) + Filter(links[1..], paths)
  }

  /** A section's links never repeat a path, even when the configuration does. */
  lemma {:induction false} PickHasNoDuplicatePaths(links: seq<NavLink>, paths: seq<string>)
    requires forall i, j :: 0 <= i < j < |paths| ==> paths[i] != paths[j]
    ensures forall i, j :: 0 <= i < j < |Pick(links, paths)| ==> Pick(links, paths)[i].path != Pick(links, paths)[j].path
  {
    PresentPathsDistinct(links, paths);
  }

  lemma {:induction false} PresentPathsDistinct(links: seq<NavLink>, paths: seq<string>)
    requires forall i, j :: 0 <= i < j < |paths| ==> paths[i] != paths[j]
    ensures forall i, j :: 0 <= i < j < |PresentPaths(links, paths)| ==> PresentPaths(links, paths)[i] != PresentPaths(links, paths)[j]
  {
    if paths != [] {
      PresentPathsDistinct(links, paths[1..]);
      assert paths[0] !in paths[1..] by {
        forall i | 0 <= i < |paths[1..]|
          ensures paths[1..][i] != paths[0]
        {
          assert paths[1..][i] == paths[i + 1];
        }
      }
    }
  }

  /**
   * useNavSections: HOVEDMENY and SYSTEM always come first, then PROFIL for a signed-in user with
   * a /me link, or AUTENTISERING with the login and register links for a visitor.
   */
  method NavSections(navLinks: seq<NavLink>, isAuthenticated: bool) returns (sections: seq<NavSection>)
    ensures |sections| >= 2
    ensures sections[0] == NavSection("HOVEDMENY", Pick(navLinks, MainPaths))
    ensures sections[1] == NavSection("SYSTEM", Pick(navLinks, SystemPaths))
    ensures isAuthenticated && Find(navLinks, ProfilePath).Some? ==>
      sections[2..] == [NavSection("PROFIL", [Find(navLinks, ProfilePath).value])]
    ensures isAuthenticated && Find(navLinks, ProfilePath).None? ==> |sections| == 2
    ensures !isAuthenticated ==> sections[2..] == [NavSection("AUTENTISERING", Filter(navLinks, AuthPaths))]
  {
    var hovedmeny := Pick(navLinks, MainPaths);
    var system := Pick(navLinks, SystemPaths);
    var profileLink := Find(navLinks, ProfilePath);
    var authLinks := Filter(navLinks, AuthPaths);
    sections := [NavSection("HOVEDMENY", hovedmeny), NavSection("SYSTEM", system)];
    if isAuthenticated && profileLink.Some? {
      sections := sections + [NavSection("PROFIL", [profileLink.value])];
    }
    if !isAuthenticated {
      sections := sections + [NavSection("AUTENTISERING", authLinks)];
    }
  }

  /** The user as the layout reads it: any of the four name fields may be missing. */
  datatype LayoutUser = LayoutUser(fullName: Option<string>, name: Option<string>, displayName: Option<string>, email: Option<string>)

  predicate Truthy(v: Option<string>) {
    v.Some? && v.value != ""
  }

  /** fullName || name || displayName || email: the first non-empty name field. */
  function NameSource(user: LayoutUser): (r: Option<string>)
    ensures r.None? <==> !Truthy(user.fullName) && !Truthy(user.name) && !Truthy(user.displayName) && !Truthy(user.email)
    ensures r.Some? ==> r.value != "" && (r == user.fullName || r == user.name || r == user.displayName || r == user.email)
    ensures Truthy(user.fullName) ==> r == user.fullName
    ensures !Truthy(user.fullName) && Truthy(user.name) ==> r == user.name
  {
    if Truthy(user.fullName) then user.fullName
    else if Truthy(user.name) then user.name
    else if Truthy(user.displayName) then user.displayName
    else if Truthy(user.email) then user.email
    else None
  }

  /** The name shown in the badge: the first non-empty name field, 'Ikke pålogget' without one or without a user. */
  function DisplayName(user: Option<LayoutUser>): (r: string)
    ensures r != ""
    ensures user.Some? && NameSource(user.value).Some? ==> r == NameSource(user.value).value
    ensures user.None? || NameSource(user.value).None? ==> r == SignedOutName
  {
    if user.Some? && NameSource(user.value).Some? then NameSource(user.value).value else SignedOutName
  }

  /** The parts that are not blank once trimmed, in order. */
  function NonBlank(parts: seq<string>): (r: seq<string>)
    ensures |r| <= |parts|
    ensures forall i :: 0 <= i < |r| ==> Trim(r[i]) != "" && r[i] in parts
    ensures forall p :: p in parts && Trim(p) != "" ==> p in r
  {
    if parts == [] then []
    else (if Trim(parts[0]) != "" then [parts[0]] else []) + NonBlank(parts[1..])
  }

  /** filter keeps order: the non-blank parts of two runs are those of the first run, then those of the second. */
  lemma {:induction false} NonBlankAppend(a: seq<string>, b: seq<string>)
    ensures NonBlank(a + b) == NonBlank(a) + NonBlank(b)
  {
    if a == [] {
      assert a + b == b;
    } else {
      var head, tail := [a[0]], a[1..];
      var kept := if Trim(a[0]) != "" then head else [];
      assert a == head + tail;
      assert a + b == head + (tail + b);
      calc {
        NonBlank(a + b);
        NonBlank(head + (tail + b));
        { NonBlankCons(a[0], tail + b); }
        kept + NonBlank(tail + b);
        { NonBlankAppend(tail, b); }
        kept + (NonBlank(tail) + NonBlank(b));
        { Sequences.Concat2(kept, NonBlank(tail), NonBlank(b)); }
        (kept + NonBlank(tail)) + NonBlank(b);
        { NonBlankCons(a[0], tail); }
        NonBlank(head + tail) + NonBlank(b);
      }
    }
  }

  /** The filter on one part put in front. */
  lemma NonBlankCons(part: string, rest: seq<string>)
    ensures NonBlank([part] + rest) == (if Trim(part) != "" then [part] else []) + NonBlank(rest)
  {
    assert ([part] + rest)[1..] == rest;
  }

  /** A run with no blank part passes the filter whole. */
  lemma {:induction false} NonBlankKeepsAll(parts: seq<string>)
    requires forall i :: 0 <= i < |parts| ==> Trim(parts[i]) != ""
    ensures NonBlank(parts) == parts
  {
    if parts != [] {
      NonBlankKeepsAll(parts[1..]);
    }
  }

  /** The words initials are taken from: the space-separated, non-blank parts of what precedes the first '@'. */
  function Words(source: string): seq<string> {
    NonBlank(Split(Split(source, '@')[0], ' '))
  }

  /** p.trim().charAt(0).toUpperCase(). */
  function FirstLetter(word: string): char
    requires Trim(word) != ""
  {
    UpperChar(Trim(word)[0])
  }

  /** The upper-cased first letter of each of the first two words. */
  function Letters(words: seq<string>): (r: string)
    requires forall i :: 0 <= i < |words| ==> Trim(words[i]) != ""
    ensures |r| == if |words| < 2 then |words| else 2
    ensures forall i :: 0 <= i < |r| ==> i < |words| && r[i] == FirstLetter(words[i])
  {
    if words == [] then ""
    else if |words| == 1 then [FirstLetter(words[0])]
    else [FirstLetter(words[0]), FirstLetter(words[1])]
  }

  /** The badge's initials: '--' without a user or without a word to take letters from. */
  function Initials(user: Option<LayoutUser>): (r: string)
    ensures user.None? ==> r == NoInitials
    ensures r == NoInitials || 1 <= |r| <= 2
    ensures user.Some? && Words(NameSource(user.value).GetOr("")) == [] ==> r == NoInitials
    ensures user.Some? && Words(NameSource(user.value).GetOr("")) != [] ==> r == Letters(Words(NameSource(user.value).GetOr("")))
  {
    if user.None? then NoInitials
    else
      var letters := Letters(Words(NameSource(user.value).GetOr("")));
      if letters == "" then NoInitials else letters
  }

  /** Only what precedes the '@' of an address counts for the initials. */
  lemma InitialsIgnoreDomain(local: string, domain: string)
    requires '@' !in local && local != ""
    ensures Initials(Some(LayoutUser(None, None, None, Some(local + "@" + domain)))) ==
      Initials(Some(LayoutUser(None, None, None, Some(local))))
  {
    var address := local + "@" + domain;
    BeforeFirstAt(local, domain);
    var withDomain, without := LayoutUser(None, None, None, Some(address)), LayoutUser(None, None, None, Some(local));
    assert NameSource(withDomain).GetOr("") == address;
    assert NameSource(without).GetOr("") == local;
    assert Words(address) == Words(local);
  }

  lemma BeforeFirstAt(local: string, domain: string)
    requires '@' !in local
    ensures Split(local + "@" + domain, '@')[0] == local && Split(local, '@')[0] == local
  {
    var address := local + "@" + domain;
    IndexOfAfter(local, domain, '@');
    assert address[..|local|] == local;
    assert IndexOf(local, '@') == |local|;
  }

  /** The badge shows the same name field the initials are taken from. */
  lemma InitialsFromDisplayedName(user: LayoutUser)
    requires NameSource(user).Some?
    ensures Initials(Some(user)) == (var w := Words(DisplayName(Some(user))); if w == [] then NoInitials else Letters(w))
  {
  }
}
