/**
 * The administrator's user list: the search and role filters, the counts of
 * regular users and administrators, the booking count on each card and the
 * role a user is switched to.
 */
module AdminUsers {
  import opened Common
  import opened Text
  import opened Seqs
  import opened Views

  /** The search term is found in the lower-cased name or email. */
  predicate SearchMatches(u: UserView, term: string) {
    term == "" || Contains(LowerOrEmpty(u.name), term) || Contains(LowerOrEmpty(u.email), term)
  }

  /** The user's role is the one chosen, or no role is chosen. */
  predicate RoleMatches(u: UserView, roleFilter: string) {
    roleFilter == "" || u.role == Some(roleFilter)
  }

  predicate Keep(u: UserView, term: string, roleFilter: string) {
    SearchMatches(u, term) && RoleMatches(u, roleFilter)
  }

  /**
   * `applyFilters`: the search term is the input lower-cased and trimmed;
   * the users that pass the search and the role filter, in their original
   * order.
   */
  function ApplyFilters(all: seq<UserView>, searchInput: string, roleFilter: string): (r: seq<UserView>)
    ensures IsSubsequence(r, all)
    ensures forall u :: u in r <==>
      u in all
      && (Trim(Lower(searchInput)) == ""
          || Contains(LowerOrEmpty(u.name), Trim(Lower(searchInput)))
          || Contains(LowerOrEmpty(u.email), Trim(Lower(searchInput))))
      && (roleFilter == "" || u.role == Some(roleFilter))
  {
    var term := Trim(Lower(searchInput));
    Filter(all, (u: UserView) => Keep(u, term, roleFilter))
  }

  /** The search ignores case beyond ASCII too: "é" finds a user named "Émile". */
  lemma AccentedSearchFindsCapital(u: UserView)
    requires u.name == Some("Émile")
    ensures ApplyFilters([u], "é", "") == [u]
  {
    assert Lower("Émile") == "émile";
    assert OccursAt("émile", "é", 0);
    assert [u][1..] == [];
  }

  /** With an empty search and no role chosen, every user is listed in order. */
  lemma NoFiltersListsAll(all: seq<UserView>)
    ensures ApplyFilters(all, "", "") == all
  {
    FilterAll(all, (u: UserView) => Keep(u, "", ""));
  }

  function HasRole(role: string): UserView -> bool {
    (u: UserView) => u.role == Some(role)
  }

  datatype Stats = Stats(total: nat, regular: nat, admins: nat)

  /** `updateStatistics`: the number of filtered users, and how many are plain users and how many administrators. */
  function UpdateStatistics(filtered: seq<UserView>): (st: Stats)
    ensures st.total == |filtered|
    ensures st.regular == Count(filtered, HasRole("USER"))
    ensures st.admins == Count(filtered, HasRole("ADMIN"))
  {
    FilterLengthIsCount(filtered, HasRole("USER"), HasRole("USER"));
    FilterLengthIsCount(filtered, HasRole("ADMIN"), HasRole("ADMIN"));
    Stats(|filtered|, |Filter(filtered, HasRole("USER"))|, |Filter(filtered, HasRole("ADMIN"))|)
  }

  /**
   * No user is counted both as a plain user and as an administrator, so the
   * two counts never exceed the total; they reach it exactly when every
   * user has one of the two roles.
   */
  lemma {:induction false} RoleCountsWithinTotal(filtered: seq<UserView>)
    ensures var st := UpdateStatistics(filtered);
      st.regular + st.admins <= st.total
      && (st.regular + st.admins == st.total <==>
          forall i :: 0 <= i < |filtered| ==> filtered[i].role in {Some("USER"), Some("ADMIN")})
  {
    if filtered != [] {
      RoleCountsWithinTotal(filtered[1..]);
      assert forall i :: 1 <= i < |filtered| ==> filtered[i] == filtered[1..][i - 1];
    }
  }

  /** The number of bookings on a user's card: the length of the history, or 0 without one. */
  function BookingCount(u: UserView): (n: nat)
    ensures u.bookings.None? ==> n == 0
    ensures u.bookings.Some? ==> n == |u.bookings.value|
  {
    if u.bookings.Some? then |u.bookings.value| else 0
  }

  /** The role a user is switched to: an administrator becomes a plain user, anyone else an administrator. */
  function NewRole(current: Option<string>): (role: string)
    ensures Some(role) != current
    ensures role == "USER" <==> current == Some("ADMIN")
    ensures role == "ADMIN" <==> current != Some("ADMIN")
  {
    if current == Some("ADMIN") then "USER" else "ADMIN"
  }

  /**
   * Switching twice gives a plain user or an administrator back their role;
   * a user with any other role, or none, ends up a plain user.
   */
  lemma SwitchingTwice(current: Option<string>)
    ensures NewRole(Some(NewRole(current))) == (if current == Some("ADMIN") then "ADMIN" else "USER")
    ensures current in {Some("USER"), Some("ADMIN")} <==> Some(NewRole(Some(NewRole(current)))) == current
  {
  }
}
