/** The list logic of the admin applications page
    (app/admin/applications/page.tsx): the role list, the three filters
    applied to the fetched applications, the per-role and per-status
    counts, and the empty-state text. Lists are built back to front, the
    way `map`, `filter` and a `Set` fill them in order. */
module ApplicationList {
  import opened Common

  /** An admin's comment on an application; only its fitment tag matters to the filters. */
  datatype Comment = Comment(comment: string, fitmentTag: Option<string>)

  /** An application as the page receives it, newest comment first. */
  datatype Application = Application(id: string, fullName: string, status: string, jobTitle: string, comments: seq<Comment>)

  const All := "all"
  const Untagged := "untagged"

  predicate StatusMatch(app: Application, filter: string)
  {
    filter == All || app.status == filter
  }

  predicate RoleMatch(app: Application, roleFilter: string)
  {
    roleFilter == All || app.jobTitle == roleFilter
  }

  /** Only the latest comment (`comments[0]`) is consulted. A named tag
      matches only applications whose latest comment carries it; "untagged"
      matches those with no comment, or whose latest comment has no tag (or
      the tag "untagged" itself). */
  predicate FitmentMatch(app: Application, fitmentFilter: string)
    ensures fitmentFilter == All ==> FitmentMatch(app, fitmentFilter)
    ensures FitmentMatch(app, fitmentFilter) && fitmentFilter != All && fitmentFilter != Untagged ==>
      |app.comments| > 0 && app.comments[0].fitmentTag == Some(fitmentFilter)
    ensures fitmentFilter == Untagged ==>
      (FitmentMatch(app, fitmentFilter) <==>
        |app.comments| == 0 || !Truthy(app.comments[0].fitmentTag) || app.comments[0].fitmentTag == Some(Untagged))
  {
    || fitmentFilter == All
    || (fitmentFilter == Untagged && (|app.comments| == 0 || !Truthy(app.comments[0].fitmentTag)))
    || (|app.comments| > 0 && app.comments[0].fitmentTag == Some(fitmentFilter))
  }

  /** An application is listed when it passes all three filters; a filter
      at "all" lets everything through. */
  predicate Matches(app: Application, filter: string, roleFilter: string, fitmentFilter: string)
    ensures filter == All && roleFilter == All && fitmentFilter == All ==> Matches(app, filter, roleFilter, fitmentFilter)
    ensures Matches(app, filter, roleFilter, fitmentFilter) && filter != All ==> app.status == filter
    ensures Matches(app, filter, roleFilter, fitmentFilter) && roleFilter != All ==> app.jobTitle == roleFilter
    ensures Matches(app, filter, roleFilter, fitmentFilter) ==> FitmentMatch(app, fitmentFilter)
  {
    StatusMatch(app, filter) && RoleMatch(app, roleFilter) && FitmentMatch(app, fitmentFilter)
  }

  /** `filteredApplications` */
  function Filtered(apps: seq<Application>, filter: string, roleFilter: string, fitmentFilter: string): (r: seq<Application>)
    ensures |r| <= |apps|
    decreases |apps|
  {
    if apps == [] then []
    else
      var n := |apps| - 1;
      Filtered(apps[..n], filter, roleFilter, fitmentFilter)
        + (if Matches(apps[n], filter, roleFilter, fitmentFilter) then [apps[n]] else [])
  }

  /** An application is listed exactly when it is one of the fetched ones
      and passes all three filters. */
  lemma {:induction false} FilteredKeepsExactly(apps: seq<Application>, filter: string, roleFilter: string, fitmentFilter: string, a: Application)
    ensures a in Filtered(apps, filter, roleFilter, fitmentFilter) <==> a in apps && Matches(a, filter, roleFilter, fitmentFilter)
    decreases |apps|
  {
    if apps != [] {
      var n := |apps| - 1;
      assert apps == apps[..n] + [apps[n]];
      FilteredKeepsExactly(apps[..n], filter, roleFilter, fitmentFilter, a);
    }
  }

  /** Every copy of a matching application is listed and no copy of any
      other: the list keeps each fetched application as often as it was
      fetched if it passes the filters, and never otherwise. */
  lemma {:induction false} FilteredKeepsEveryCopy(apps: seq<Application>, filter: string, roleFilter: string, fitmentFilter: string, a: Application)
    ensures multiset(Filtered(apps, filter, roleFilter, fitmentFilter))[a]
      == if Matches(a, filter, roleFilter, fitmentFilter) then multiset(apps)[a] else 0
    decreases |apps|
  {
    if apps != [] {
      var n := |apps| - 1;
      assert apps == apps[..n] + [apps[n]];
      assert multiset(apps) == multiset(apps[..n]) + multiset{apps[n]};
      FilteredKeepsEveryCopy(apps[..n], filter, roleFilter, fitmentFilter, a);
    }
  }

  /** `r` can be obtained from `s` by deleting elements, keeping the order. */
  ghost predicate IsSubsequence<T>(r: seq<T>, s: seq<T>)
    decreases |s|
  {
    if s == [] then r == []
    else
      || (|r| > 0 && r[|r| - 1] == s[|s| - 1] && IsSubsequence(r[..|r| - 1], s[..|s| - 1]))
      || IsSubsequence(r, s[..|s| - 1])
  }

  /** The list shown is an order-preserving subsequence of the fetched list. */
  lemma {:induction false} FilteredIsSubsequence(apps: seq<Application>, filter: string, roleFilter: string, fitmentFilter: string)
    ensures IsSubsequence(Filtered(apps, filter, roleFilter, fitmentFilter), apps)
    decreases |apps|
  {
    if apps != [] {
      var n := |apps| - 1;
      var prefix := Filtered(apps[..n], filter, roleFilter, fitmentFilter);
      FilteredIsSubsequence(apps[..n], filter, roleFilter, fitmentFilter);
      if Matches(apps[n], filter, roleFilter, fitmentFilter) {
        assert (prefix + [apps[n]])[..|prefix|] == prefix;
      } else {
        assert Filtered(apps, filter, roleFilter, fitmentFilter) == prefix;
      }
    }
  }

  /** With all three filters at "all" every application is listed, in order. */
  lemma {:induction false} NoFilterListsAll(apps: seq<Application>)
    ensures Filtered(apps, All, All, All) == apps
    decreases |apps|
  {
    if apps != [] {
      var n := |apps| - 1;
      NoFilterListsAll(apps[..n]);
      assert apps == apps[..n] + [apps[n]];
    }
  }

  /** The fitment filter reads the latest comment only: two applications
      that agree on status, title and first comment are treated alike,
      whatever their older comments say. */
  lemma FitmentReadsLatestCommentOnly(a: Application, b: Application, filter: string, roleFilter: string, fitmentFilter: string)
    requires a.status == b.status && a.jobTitle == b.jobTitle
    requires |a.comments| > 0 && |b.comments| > 0 && a.comments[0] == b.comments[0]
    ensures Matches(a, filter, roleFilter, fitmentFilter) == Matches(b, filter, roleFilter, fitmentFilter)
  {
  }

  /** The job titles of the applications, in order. */
  function Titles(apps: seq<Application>): (t: seq<string>)
    ensures |t| == |apps|
    ensures forall i :: 0 <= i < |apps| ==> t[i] == apps[i].jobTitle
    decreases |apps|
  {
    if apps == [] then [] else Titles(apps[..|apps| - 1]) + [apps[|apps| - 1].jobTitle]
  }

  predicate NoDuplicates(s: seq<string>)
  {
    forall i, j :: 0 <= i < j < |s| ==> s[i] != s[j]
  }

  /** `Array.from(new Set(s))`: each element once, at its first occurrence. */
  function Distinct(s: seq<string>): (r: seq<string>)
    ensures NoDuplicates(r)
    ensures forall x :: x in r <==> x in s
    decreases |s|
  {
    if s == [] then []
    else
      var p := Distinct(s[..|s| - 1]);
      var x := s[|s| - 1];
      assert s == s[..|s| - 1] + [x];
      if x in p then p else p + [x]
  }

  /** `uniqueRoles`: every application's title, each once. */
  function UniqueRoles(apps: seq<Application>): (roles: seq<string>)
    ensures NoDuplicates(roles)
    ensures forall i :: 0 <= i < |apps| ==> apps[i].jobTitle in roles
    ensures forall t :: t in roles ==> exists i :: 0 <= i < |apps| && apps[i].jobTitle == t
  {
    Distinct(Titles(apps))
  }

  /** The index at which `x` first occurs in `s`. */
  function FirstIndex(s: seq<string>, x: string): (i: nat)
    requires x in s
    ensures i < |s| && s[i] == x
    ensures forall j :: 0 <= j < i ==> s[j] != x
    decreases |s|
  {
    var n := |s| - 1;
    if x in s[..n] then FirstIndex(s[..n], x) else n
  }

  /** Every element of `r` occurs in `s`, and `r` lists them in the order
      of their first occurrence in `s`. */
  predicate InFirstOccurrenceOrder(s: seq<string>, r: seq<string>)
  {
    && (forall x :: x in r ==> x in s)
    && (forall i, j :: 0 <= i < j < |r| ==> FirstIndex(s, r[i]) < FirstIndex(s, r[j]))
  }

  /** `Distinct` keeps the order of first occurrence. */
  lemma {:induction false} DistinctKeepsFirstOccurrenceOrder(s: seq<string>)
    ensures InFirstOccurrenceOrder(s, Distinct(s))
    decreases |s|
  {
    if s != [] {
      var n := |s| - 1;
      var p := Distinct(s[..n]);
      var r := Distinct(s);
      DistinctKeepsFirstOccurrenceOrder(s[..n]);
      assert InFirstOccurrenceOrder(s[..n], p);
      forall y | y in s[..n]
        ensures FirstIndex(s, y) == FirstIndex(s[..n], y) < n
      {
      }
      forall i, j | 0 <= i < j < |r|
        ensures FirstIndex(s, r[i]) < FirstIndex(s, r[j])
      {
        assert r[i] == p[i] && p[i] in s[..n];
        if j < |p| {
          assert r[j] == p[j] && p[j] in s[..n];
          assert FirstIndex(s[..n], p[i]) < FirstIndex(s[..n], p[j]);
        } else {
          assert r[j] == s[n] && s[n] !in s[..n];
          assert FirstIndex(s, r[j]) == n;
        }
      }
    }
  }

  /** The role list has no repeated title, holds exactly the titles of the
      applications, and lists them in order of first appearance. */
  lemma UniqueRolesSpec(apps: seq<Application>)
    ensures NoDuplicates(UniqueRoles(apps))
    ensures forall t :: t in UniqueRoles(apps) <==> t in Titles(apps)
    ensures InFirstOccurrenceOrder(Titles(apps), UniqueRoles(apps))
  {
    DistinctKeepsFirstOccurrenceOrder(Titles(apps));
  }

  /** `applications.filter(a => a.job.title === role).length` */
  function RoleCount(apps: seq<Application>, role: string): (c: nat)
    ensures c <= |apps|
    decreases |apps|
  {
    if apps == [] then 0
    else RoleCount(apps[..|apps| - 1], role) + (if apps[|apps| - 1].jobTitle == role then 1 else 0)
  }

  /** `applications.filter(a => a.status === status).length` */
  function StatusCount(apps: seq<Application>, status: string): (c: nat)
    ensures c <= |apps|
    decreases |apps|
  {
    if apps == [] then 0
    else StatusCount(apps[..|apps| - 1], status) + (if apps[|apps| - 1].status == status then 1 else 0)
  }

  /** The count shown beside a role is the length of the list that choosing
      that role shows while the status and fitment filters are both "all"
      (for any role other than the literal "all"). */
  lemma {:induction false} RoleCountIsListLength(apps: seq<Application>, role: string)
    requires role != All
    ensures RoleCount(apps, role) == |Filtered(apps, All, role, All)|
    decreases |apps|
  {
    if apps != [] {
      RoleCountIsListLength(apps[..|apps| - 1], role);
    }
  }

  /** The count on a status button is the length of the list that pressing
      it shows while the role and fitment filters are both "all" (for any
      status other than the literal "all"). */
  lemma {:induction false} StatusCountIsListLength(apps: seq<Application>, status: string)
    requires status != All
    ensures StatusCount(apps, status) == |Filtered(apps, status, All, All)|
    decreases |apps|
  {
    if apps != [] {
      StatusCountIsListLength(apps[..|apps| - 1], status);
    }
  }

  /** The sum of the counts of the roles in `roles`. */
  function RolesTotal(roles: seq<string>, apps: seq<Application>): nat
    decreases |roles|
  {
    if roles == [] then 0 else RoleCount(apps, roles[0]) + RolesTotal(roles[1..], apps)
  }

  /** How often `x` occurs in `s`. */
  function Occurrences(s: seq<string>, x: string): nat
    decreases |s|
  {
    if s == [] then 0 else (if s[0] == x then 1 else 0) + Occurrences(s[1..], x)
  }

  lemma {:induction false} OccursOnce(s: seq<string>, x: string)
    requires NoDuplicates(s) && x in s
    ensures Occurrences(s, x) == 1
    decreases |s|
  {
    if s[0] != x {
      OccursOnce(s[1..], x);
    } else {
      OccursNot(s[1..], x);
    }
  }

  lemma {:induction false} OccursNot(s: seq<string>, x: string)
    requires x !in s
    ensures Occurrences(s, x) == 0
    decreases |s|
  {
    if s != [] {
      OccursNot(s[1..], x);
    }
  }

  /** Adding one application adds one to the total of every role list, once
      per occurrence of its title there. */
  lemma {:induction false} RolesTotalAppend(roles: seq<string>, apps: seq<Application>, a: Application)
    ensures RolesTotal(roles, apps + [a]) == RolesTotal(roles, apps) + Occurrences(roles, a.jobTitle)
    decreases |roles|
  {
    assert (apps + [a])[..|apps|] == apps;
    if roles != [] {
      RolesTotalAppend(roles[1..], apps, a);
    }
  }

  /** Summing the per-role counts over any duplicate-free list that covers
      every title gives the number of applications. */
  lemma {:induction false} RolesTotalCovers(roles: seq<string>, apps: seq<Application>)
    requires NoDuplicates(roles)
    requires forall t :: t in Titles(apps) ==> t in roles
    ensures RolesTotal(roles, apps) == |apps|
    decreases |apps|
  {
    if apps == [] {
      RolesTotalEmpty(roles);
    } else {
      var n := |apps| - 1;
      assert apps == apps[..n] + [apps[n]];
      assert Titles(apps) == Titles(apps[..n]) + [apps[n].jobTitle];
      RolesTotalCovers(roles, apps[..n]);
      RolesTotalAppend(roles, apps[..n], apps[n]);
      OccursOnce(roles, apps[n].jobTitle);
    }
  }

  lemma {:induction false} RolesTotalEmpty(roles: seq<string>)
    ensures RolesTotal(roles, []) == 0
    decreases |roles|
  {
    if roles != [] {
      RolesTotalEmpty(roles[1..]);
    }
  }

  /** The per-role counts in the role selector add up to the "All Roles"
      count, `applications.length`. */
  lemma RoleCountsSumToTotal(apps: seq<Application>)
    ensures RolesTotal(UniqueRoles(apps), apps) == |apps|
  {
    RolesTotalCovers(UniqueRoles(apps), apps);
  }

  const NoApplicationsYet := "No applications yet."
  const NoMatches := "No applications match the selected filters."

  /** The text shown when the filtered list is empty: "No applications
      yet." with no filter set, the no-match text as soon as one is. */
  function EmptyStateText(filter: string, roleFilter: string, fitmentFilter: string): (text: string)
    ensures text == NoApplicationsYet || text == NoMatches
    ensures text == NoApplicationsYet <==> filter == All && roleFilter == All && fitmentFilter == All
  {
    if filter == All && roleFilter == All && fitmentFilter == All then NoApplicationsYet else NoMatches
  }

  /** "No applications yet." appears only when it is true: the list is
      empty under that text only if there are no applications at all. */
  lemma EmptyStateIsTruthful(apps: seq<Application>, filter: string, roleFilter: string, fitmentFilter: string)
    requires Filtered(apps, filter, roleFilter, fitmentFilter) == []
    ensures EmptyStateText(filter, roleFilter, fitmentFilter) == NoApplicationsYet <==>
      filter == All && roleFilter == All && fitmentFilter == All
    ensures EmptyStateText(filter, roleFilter, fitmentFilter) == NoApplicationsYet ==> apps == []
  {
    if EmptyStateText(filter, roleFilter, fitmentFilter) == NoApplicationsYet {
      NoFilterListsAll(apps);
    }
  }
}
