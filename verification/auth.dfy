/** The purchase side of the auth context (src/contexts/AuthContext.js):
    the app user derived from the identity provider's user, and buying a
    course or a package, which appends to a list kept in the provider's
    user metadata. The provider's update call and the navigation to the
    sign-up page are returned to the caller as a `Purchase`. */
module Auth {
  import opened Common

  /** The provider's unsafe metadata: the purchase list, which may be
      absent, and whatever other keys it holds, written back unchanged. */
  datatype Metadata = Metadata(purchasedCourses: Option<seq<string>>, other: map<string, string>)

  /** The provider's user as the context reads it. */
  datatype ProviderUser = ProviderUser(id: string, fullName: Option<string>, firstName: Option<string>,
                                       email: Option<string>, metadata: Metadata)

  /** The user the context exposes. */
  datatype User = User(id: string, name: string, email: Option<string>, purchasedCourses: seq<string>)

  /** `unsafeMetadata.purchasedCourses || []`: a missing list reads as
      empty (a present list is truthy even when empty). */
  function Purchased(m: Metadata): (r: seq<string>)
    ensures m.purchasedCourses.Some? ==> r == m.purchasedCourses.value
    ensures m.purchasedCourses.None? ==> r == []
  {
    m.purchasedCourses.GetOr([])
  }

  /** `fullName || firstName || 'User'`: an empty name falls through. */
  function DisplayName(u: ProviderUser): (name: string)
    ensures name != ""
    ensures Present(u.fullName) ==> name == u.fullName.value
    ensures !Present(u.fullName) && Present(u.firstName) ==> name == u.firstName.value
    ensures !Present(u.fullName) && !Present(u.firstName) ==> name == "User"
  {
    if Present(u.fullName) then u.fullName.value
    else if Present(u.firstName) then u.firstName.value
    else "User"
  }

  function AppUser(u: ProviderUser): (r: User)
    ensures r.id == u.id && r.email == u.email && r.name == DisplayName(u)
    ensures r.purchasedCourses == Purchased(u.metadata)
  {
    User(u.id, DisplayName(u), u.email, Purchased(u.metadata))
  }

  /** The effect on `[clerkUser, isLoaded]`: once loaded, the app user
      mirrors the provider's user or is `null`; while loading it is left as
      it was. */
  function SyncUser(prev: Option<User>, isLoaded: bool, provider: Option<ProviderUser>): (r: Option<User>)
    ensures !isLoaded ==> r == prev
    ensures isLoaded ==> (r.Some? <==> provider.Some?)
    ensures isLoaded && provider.Some? ==> r.value.purchasedCourses == Purchased(provider.value.metadata)
  {
    if isLoaded && provider.Some? then Some(AppUser(provider.value))
    else if isLoaded then None
    else prev
  }

  // ---- Purchases ----

  /** What a purchase does: send the visitor to sign up, nothing, or write
      the given metadata to the provider. */
  datatype Purchase = SignUpFirst | Unchanged | Update(metadata: Metadata)

  /** The provider's user after a purchase has been written. */
  function Applied(u: ProviderUser, p: Purchase): (r: ProviderUser)
    ensures p.Update? ==> r == u.(metadata := p.metadata)
    ensures !p.Update? ==> r == u
  {
    if p.Update? then u.(metadata := p.metadata) else u
  }

  /** The list after buying one course: unchanged when owned, else the
      course appended. */
  function AfterCourse(list: seq<string>, id: string): (r: seq<string>)
    ensures id in r
    ensures forall x :: x in r <==> x in list || x == id
    ensures |r| >= |list| && r[..|list|] == list
  {
    if id in list then list else list + [id]
  }

  /** `buyCourse(courseId)`. */
  function BuyCourse(provider: Option<ProviderUser>, courseId: string): (r: Purchase)
    ensures provider.None? <==> r == SignUpFirst
    ensures provider.Some? ==> (r == Unchanged <==> courseId in Purchased(provider.value.metadata))
    ensures r.Update? ==> r.metadata.other == provider.value.metadata.other
    ensures provider.Some? ==>
              Purchased(Applied(provider.value, r).metadata) == AfterCourse(Purchased(provider.value.metadata), courseId)
  {
    if provider.None? then SignUpFirst
    else
      var current := Purchased(provider.value.metadata);
      if courseId in current then Unchanged
      else Update(provider.value.metadata.(purchasedCourses := Some(current + [courseId])))
  }

  /** `packageObj.courseIds.filter(id => !currentPurchased.includes(id))`:
      the package's courses not yet owned, in package order. */
  function NewCourses(current: seq<string>, ids: seq<string>): (r: seq<string>)
    ensures forall x :: x in r <==> x in ids && x !in current
    ensures |r| <= |ids|
  {
    if ids == [] then []
    else
      var rest := NewCourses(current, ids[1..]);
      assert forall x :: x in ids <==> x == ids[0] || x in ids[1..];
      if ids[0] in current then rest else [ids[0]] + rest
  }

  /** `buyPackage(packageObj)`. */
  function BuyPackage(provider: Option<ProviderUser>, ids: seq<string>): (r: Purchase)
    ensures provider.None? <==> r == SignUpFirst
    ensures provider.Some? ==>
              (r == Unchanged <==> forall id :: id in ids ==> id in Purchased(provider.value.metadata))
    ensures r.Update? ==> r.metadata.other == provider.value.metadata.other
    ensures provider.Some? ==>
              var current := Purchased(provider.value.metadata);
              Purchased(Applied(provider.value, r).metadata) == current + NewCourses(current, ids)
  {
    if provider.None? then SignUpFirst
    else
      var current := Purchased(provider.value.metadata);
      var unowned := NewCourses(current, ids);
      if |unowned| == 0 then
        assert current + unowned == current;
        Unchanged
      else
        assert unowned[0] in unowned;
        Update(provider.value.metadata.(purchasedCourses := Some(current + unowned)))
  }

  /** Buying a course twice is buying it once. */
  lemma BuyCourseIdempotent(u: ProviderUser, courseId: string)
    ensures var once := Applied(u, BuyCourse(Some(u), courseId));
            BuyCourse(Some(once), courseId) == Unchanged
  {
  }

  /** Buying a package twice is buying it once, and afterwards every course
      of the package is owned. */
  lemma BuyPackageIdempotent(u: ProviderUser, ids: seq<string>)
    ensures var once := Applied(u, BuyPackage(Some(u), ids));
            && (forall id :: id in ids ==> id in Purchased(once.metadata))
            && BuyPackage(Some(once), ids) == Unchanged
  {
  }

  /** A list without repeats stays without repeats after buying a course. */
  lemma BuyCourseKeepsDistinct(list: seq<string>, id: string)
    requires NoDuplicates(list)
    ensures NoDuplicates(AfterCourse(list, id))
  {
    if id !in list {
      AppendFreshKeepsNoDuplicates(list, id);
    }
  }

  /** The package's own courses, bought one after the other. */
  function AfterEach(list: seq<string>, ids: seq<string>): (r: seq<string>)
    ensures |r| >= |list| && r[..|list|] == list
    decreases |ids|
  {
    if ids == [] then list
    else
      var next := AfterCourse(list, ids[0]);
      var r := AfterEach(next, ids[1..]);
      assert r[..|list|] == r[..|next|][..|list|];
      r
  }

  /** Marking one more course owned does not change which of the other
      courses are new. */
  lemma {:induction false} NewCoursesIgnoresOthers(current: seq<string>, x: string, ids: seq<string>)
    requires x !in ids
    ensures NewCourses(current + [x], ids) == NewCourses(current, ids)
  {
    if ids != [] {
      assert ids[0] in current + [x] <==> ids[0] in current;
      NewCoursesIgnoresOthers(current, x, ids[1..]);
    }
  }

  /** A package without repeated courses does what buying its courses one
      after the other does. */
  lemma {:induction false} PackageIsCoursesInTurn(list: seq<string>, ids: seq<string>)
    requires NoDuplicates(ids)
    ensures AfterEach(list, ids) == list + NewCourses(list, ids)
    decreases |ids|
  {
    if ids == [] {
      assert list + [] == list;
    } else {
      var rest := ids[1..];
      NoDuplicatesTail(ids);
      PackageIsCoursesInTurn(AfterCourse(list, ids[0]), rest);
      if ids[0] !in list {
        NewCoursesIgnoresOthers(list, ids[0], rest);
        AppendAssoc(list, [ids[0]], NewCourses(list, rest));
      }
    }
  }

  /** A package that names a course twice lists it twice: the filter
      compares against the list before the purchase only. */
  lemma RepeatedPackageCourseListedTwice(u: ProviderUser)
    requires Purchased(u.metadata) == []
    ensures Purchased(Applied(u, BuyPackage(Some(u), ["word", "word"])).metadata) == ["word", "word"]
    ensures !NoDuplicates(["word", "word"])
  {
    assert NewCourses([], ["word", "word"]) == ["word", "word"];
    assert ["word", "word"][0] == ["word", "word"][1];
  }
}
