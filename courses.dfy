/**
 * The mobile course list: the courses visible in the catalog, kept when the
 * user holds every required permission (the catalog-visibility permission is
 * always among them), then narrowed to the hits of a courseware search when
 * search is enabled and a term is given.
 *
 * The platform's calls are parameters: the visible courses (already filtered
 * by organisation and by the caller's key/value filter), `has_access`, the
 * effective-user lookup and the search engine, which answers the ids of the
 * courses it found.
 */
module Courses {
  import opened Common

  /** A course, by the string form of its id (`str(course.id)`). */
  datatype Course = Course(id: string)

  type Permission = string

  /** A user, by username. */
  type User = string

  /** What the platform's `LazySequence` holds: the items it yields, in
      order, and the estimated length it reports. */
  datatype LazySequence = LazySequence(items: seq<Course>, estLen: nat)

  /** The search is asked for up to this many results. */
  const ResultsSizeInfinity := 10000

  predicate Distinct(s: seq<Course>) {
    forall i, j :: 0 <= i < j < |s| ==> s[i] != s[j]
  }

  /** `set(permissions or '')` plus the catalog-visibility permission. */
  function RequiredPermissions(permissions: Option<seq<Permission>>, catalog: Permission): (r: set<Permission>)
    ensures catalog in r
    ensures forall p :: p in r <==> p == catalog || (permissions.Some? && p in permissions.value)
  {
    var extra := if permissions.Some? then set p | p in permissions.value else {};
    extra + {catalog}
  }

  /** No permissions, or an empty list of them, require the catalog
      permission alone. */
  lemma NoPermissionsOnlyCatalog(catalog: Permission)
    ensures RequiredPermissions(None, catalog) == {catalog}
    ensures RequiredPermissions(Some([]), catalog) == {catalog}
  {
  }

  /** `user` holds every one of `required` on course `c`. */
  predicate Granted(hasAccess: (User, Permission, Course) -> bool, user: User, required: set<Permission>, c: Course) {
    forall p :: p in required ==> hasAccess(user, p, c)
  }

  /** The visible courses `user` may see, as a set. */
  ghost function PermittedCourses(hasAccess: (User, Permission, Course) -> bool, user: User,
                                  visible: seq<Course>, required: set<Permission>): set<Course> {
    set c | c in visible && Granted(hasAccess, user, required, c)
  }

  /** Some order in which iterating a set yields its elements: each exactly
      once. Which order it is, the model leaves open. */
  ghost function IterationOrder(s: set<Course>): (r: seq<Course>)
    ensures |r| == |s|
    ensures forall c :: c in r <==> c in s
    ensures Distinct(r)
    decreases |s|
  {
    if s == {} then []
    else
      var c :| c in s;
      var rest := IterationOrder(s - {c});
      assert c !in rest;
      [c] + rest
  }

  /** `get_courses`: the permitted courses, deduplicated, with their count as
      the estimated length. */
  ghost function GetCourses(hasAccess: (User, Permission, Course) -> bool, user: User, visible: seq<Course>,
                            permissions: Option<seq<Permission>>, catalog: Permission): (r: LazySequence)
    ensures r.estLen == |r.items|
    ensures Distinct(r.items)
  {
    var courses := PermittedCourses(hasAccess, user, visible, RequiredPermissions(permissions, catalog));
    LazySequence(IterationOrder(courses), |courses|)
  }

  /** A course is listed exactly when it is visible and every permission
      asked for, and the catalog permission, are granted on it. */
  lemma GetCoursesKeepsPermitted(hasAccess: (User, Permission, Course) -> bool, user: User, visible: seq<Course>,
                                 permissions: Option<seq<Permission>>, catalog: Permission, c: Course)
    ensures c in GetCourses(hasAccess, user, visible, permissions, catalog).items
      <==> && c in visible
           && hasAccess(user, catalog, c)
           && (permissions.Some? ==> forall p :: p in permissions.value ==> hasAccess(user, p, c))
  {
    var required := RequiredPermissions(permissions, catalog);
    if c in visible && hasAccess(user, catalog, c)
       && (permissions.Some? ==> forall p :: p in permissions.value ==> hasAccess(user, p, c)) {
      assert Granted(hasAccess, user, required, c);
    }
  }

  /** The search filter is in force: search is enabled and the term is
      neither missing nor empty. */
  predicate SearchActive(searchEnabled: bool, term: Option<string>) {
    searchEnabled && term.Some? && term.value != ""
  }

  /** The courses whose id is among `ids`, in their original order. */
  function KeepIds(items: seq<Course>, ids: set<string>): (r: seq<Course>)
    ensures |r| <= |items|
  {
    if items == [] then []
    else if items[0].id in ids then [items[0]] + KeepIds(items[1..], ids)
    else KeepIds(items[1..], ids)
  }

  /** `r` is `s` with some elements dropped and the rest in order. */
  predicate IsSubsequence(r: seq<Course>, s: seq<Course>)
    decreases |s|
  {
    if r == [] then true
    else if s == [] then false
    else if r[0] == s[0] then IsSubsequence(r[1..], s[1..])
    else IsSubsequence(r, s[1..])
  }

  lemma {:induction false} KeepIdsSubsequence(items: seq<Course>, ids: set<string>)
    ensures IsSubsequence(KeepIds(items, ids), items)
  {
    if items != [] {
      KeepIdsSubsequence(items[1..], ids);
      var rest := KeepIds(items[1..], ids);
      if items[0].id in ids {
        assert ([items[0]] + rest)[1..] == rest;
      } else if rest != [] && rest[0] == items[0] {
        // The dropped course is not the next one kept, since its id is not
        // in `ids`.
        KeepIdsMembers(items[1..], ids);
        assert false;
      }
    }
  }

  lemma {:induction false} KeepIdsMembers(items: seq<Course>, ids: set<string>)
    ensures forall c :: c in KeepIds(items, ids) <==> c in items && c.id in ids
  {
    if items != [] {
      KeepIdsMembers(items[1..], ids);
      assert items == [items[0]] + items[1..];
    }
  }

  lemma {:induction false} KeepIdsDistinct(items: seq<Course>, ids: set<string>)
    requires Distinct(items)
    ensures Distinct(KeepIds(items, ids))
  {
    if items != [] {
      assert Distinct(items[1..]) by {
        forall i, j | 0 <= i < j < |items[1..]| ensures items[1..][i] != items[1..][j] {
          assert items[1..][i] == items[i + 1] && items[1..][j] == items[j + 1];
        }
      }
      KeepIdsDistinct(items[1..], ids);
      KeepIdsMembers(items[1..], ids);
      var rest := KeepIds(items[1..], ids);
      if items[0].id in ids {
        assert items[0] !in items[1..] by {
          forall k | 0 <= k < |items[1..]| ensures items[1..][k] != items[0] {
            assert items[1..][k] == items[k + 1];
          }
        }
        assert items[0] !in rest;
        var r := [items[0]] + rest;
        forall i, j | 0 <= i < j < |r| ensures r[i] != r[j] {
          if i == 0 {
            assert r[j] == rest[j - 1];
          } else {
            assert r[i] == rest[i - 1] && r[j] == rest[j - 1];
          }
        }
      }
    }
  }

  /** `_filter_by_search`: the input untouched unless the search filter is in
      force; otherwise the courses the search found, in the input's order,
      with their count as the estimated length. `search(term, size)` stands
      for the search engine's answer: the ids of the courses it found. */
  function FilterBySearch(qs: LazySequence, searchEnabled: bool, term: Option<string>,
                          search: (string, nat) -> seq<string>): (r: LazySequence)
    ensures !SearchActive(searchEnabled, term) ==> r == qs
    ensures SearchActive(searchEnabled, term) ==> r.estLen == |r.items| <= |qs.items|
  {
    if !SearchActive(searchEnabled, term) then qs
    else
      var ids := set id | id in search(term.value, ResultsSizeInfinity);
      var courses := KeepIds(qs.items, ids);
      LazySequence(courses, |courses|)
  }

  /** With the search filter in force, the result keeps the input's order and
      holds exactly the courses whose id the search returned. */
  lemma FilterBySearchKeepsHits(qs: LazySequence, searchEnabled: bool, term: Option<string>,
                                search: (string, nat) -> seq<string>)
    requires SearchActive(searchEnabled, term)
    ensures var r := FilterBySearch(qs, searchEnabled, term, search);
      && IsSubsequence(r.items, qs.items)
      && forall c :: c in r.items <==> c in qs.items && c.id in search(term.value, ResultsSizeInfinity)
  {
    var ids := set id | id in search(term.value, ResultsSizeInfinity);
    KeepIdsSubsequence(qs.items, ids);
    KeepIdsMembers(qs.items, ids);
  }

  /** `list_courses`: the permission filter for the effective user, then the
      search filter. `effectiveUser(requestUser, username)` stands for
      `get_effective_user`. */
  ghost function ListCourses(hasAccess: (User, Permission, Course) -> bool,
                             effectiveUser: (User, string) -> User, requestUser: User, username: string,
                             visible: seq<Course>, permissions: Option<seq<Permission>>, catalog: Permission,
                             searchEnabled: bool, term: Option<string>,
                             search: (string, nat) -> seq<string>): (r: LazySequence)
    ensures r.estLen == |r.items|
  {
    var user := effectiveUser(requestUser, username);
    FilterBySearch(GetCourses(hasAccess, user, visible, permissions, catalog), searchEnabled, term, search)
  }

  /** A listed course is one the effective user may see and, with the search
      filter in force, one the search found; no course is listed twice. */
  lemma ListCoursesMembers(hasAccess: (User, Permission, Course) -> bool,
                           effectiveUser: (User, string) -> User, requestUser: User, username: string,
                           visible: seq<Course>, permissions: Option<seq<Permission>>, catalog: Permission,
                           searchEnabled: bool, term: Option<string>,
                           search: (string, nat) -> seq<string>, c: Course)
    ensures var r := ListCourses(hasAccess, effectiveUser, requestUser, username, visible, permissions,
                                 catalog, searchEnabled, term, search);
      var user := effectiveUser(requestUser, username);
      && Distinct(r.items)
      && (c in r.items <==>
            && c in visible
            && Granted(hasAccess, user, RequiredPermissions(permissions, catalog), c)
            && (SearchActive(searchEnabled, term) ==> c.id in search(term.value, ResultsSizeInfinity)))
  {
    var user := effectiveUser(requestUser, username);
    var qs := GetCourses(hasAccess, user, visible, permissions, catalog);
    if SearchActive(searchEnabled, term) {
      FilterBySearchKeepsHits(qs, searchEnabled, term, search);
      KeepIdsDistinct(qs.items, set id | id in search(term.value, ResultsSizeInfinity));
    }
  }
}
