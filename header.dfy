/** The site header: the navigation links chosen by the current user's role, the rule that
    highlights the active link, and the account menu with its two role switches. */
module Header {
  import opened Seqs
  import opened Types
  import opened UserContext

  datatype NavLink = NavLink(href: string, text: string)

  const TrainerLinks: seq<NavLink> := [
    NavLink("/trainer", "Dashboard"),
    NavLink("/trainer/courses", "My Courses"),
    NavLink("/trainer/sessions", "Sessions"),
    NavLink("/trainer/attendance", "Attendance"),
    NavLink("/trainer/reports", "Reports")]

  const ClientLinks: seq<NavLink> := [
    NavLink("/client", "Dashboard"),
    NavLink("/client/courses", "Browse Courses"),
    NavLink("/client/my-courses", "My Courses"),
    NavLink("/client/progress", "Progress")]

  const HomeLinks: seq<NavLink> := [NavLink("/", "Home")]

  /** A trainer gets the five trainer pages, a client the four client pages, and an admin or
      nobody the single Home link; the trainer's and the client's links stay within their area. */
  function NavLinks(user: Option<User>): (r: seq<NavLink>)
    ensures user.Some? && user.value.role == Trainer ==> |r| == 5 && r[0].href == "/trainer"
    ensures user.Some? && user.value.role == Client ==> |r| == 4 && r[0].href == "/client"
    ensures user.Some? && user.value.role == Trainer ==> r == TrainerLinks
    ensures user.Some? && user.value.role == Client ==> r == ClientLinks
    ensures user.None? || user.value.role == Admin ==> r == [NavLink("/", "Home")]
    ensures user.Some? && user.value.role == Trainer ==> forall i :: 0 <= i < |r| ==> 8 <= |r[i].href| && r[i].href[..8] == "/trainer"
    ensures user.Some? && user.value.role == Client ==> forall i :: 0 <= i < |r| ==> 7 <= |r[i].href| && r[i].href[..7] == "/client"
  {
    if user.Some? && user.value.role == Trainer then TrainerLinks
    else if user.Some? && user.value.role == Client then ClientLinks
    else HomeLinks
  }

  /** `pathname === link.href`. */
  predicate IsActive(link: NavLink, pathname: string)
  {
    pathname == link.href
  }

  /** No two links of any role share an href, so at most one link is highlighted. */
  lemma AtMostOneActive(user: Option<User>, pathname: string)
    ensures var links := NavLinks(user);
            forall i, j :: 0 <= i < |links| && 0 <= j < |links| && IsActive(links[i], pathname) && IsActive(links[j], pathname)
                           ==> i == j
  {
    var links := NavLinks(user);
    forall i, j | 0 <= i < j < |links| ensures links[i].href != links[j].href {
      DistinctHrefs(links, i, j);
    }
  }

  /** The hrefs of each role's links differ pairwise. */
  lemma DistinctHrefs(links: seq<NavLink>, i: nat, j: nat)
    requires links == TrainerLinks || links == ClientLinks || links == HomeLinks
    requires i < j < |links|
    ensures links[i].href != links[j].href
  {
    if links == TrainerLinks {
      assert |links[0].href| == 8 && |links[1].href| == 16 && |links[2].href| == 17;
      assert |links[3].href| == 19 && |links[4].href| == 16;
      assert links[1].href[9] == 'c' && links[4].href[9] == 'r';
    } else if links == ClientLinks {
      assert |links[0].href| == 7 && |links[1].href| == 15 && |links[2].href| == 18 && |links[3].href| == 16;
    }
  }

  /** The account menu: present only with a current user, offering a switch to the client and
      to the trainer role, in that order. */
  function AccountMenu(user: Option<User>): (r: Option<seq<Role>>)
    ensures r.Some? <==> user.Some?
    ensures r.Some? ==> r.value == [Client, Trainer]
  {
    if user.Some? then Some([Client, Trainer]) else None
  }

  /** Choosing a menu item switches to the first listed user of that role, when there is one, and
      the navigation becomes that role's. */
  lemma MenuSwitchesLinks(users: seq<User>, current: Option<User>, role: Role)
    requires AccountMenu(current).Some? && role in AccountMenu(current).value
    requires exists i :: 0 <= i < |users| && users[i].role == role
    ensures NavLinks(SwitchedUser(users, current, role)) == if role == Trainer then TrainerLinks else ClientLinks
  {
    var found := FirstWithRole(users, role);
    assert found.Some? && found.value.role == role;
  }
}
