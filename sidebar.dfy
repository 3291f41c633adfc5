/** The dashboard sidebar's navigation: the menu items each role sees and
    which of them is highlighted for the current path. */
module Sidebar {

  datatype Role = Admin | Mentor | Mentee | Pc

  /** The role as it appears in URLs. */
  function RoleName(role: Role): string {
    match role
    case Admin => "admin"
    case Mentor => "mentor"
    case Mentee => "mentee"
    case Pc => "pc"
  }

  /** A menu entry; its icon is presentation only. */
  datatype NavItem = NavItem(title: string, href: string)

  /** The three entries every role starts with. */
  function BaseItems(role: Role): (r: seq<NavItem>)
    ensures |r| == 3
  {
    [ NavItem("Dashboard", RolePath(role, "dashboard")),
      NavItem("Profile", RolePath(role, "profile")),
      NavItem("Meetings", RolePath(role, "meetings")) ]
  }

  /** The link of a role's page, `/${role}/${page}`. */
  function RolePath(role: Role, page: string): string {
    "/" + RoleName(role) + "/" + page
  }

  /** The role part of a link spelled out. */
  lemma RolePathSpelled(role: Role, page: string)
    ensures RolePath(role, page) == (match role
      case Admin => "/admin/" case Mentor => "/mentor/"
      case Mentee => "/mentee/" case Pc => "/pc/") + page
  {
  }

  /** The menu for a role: the base entries followed by the role's own. */
  function NavItems(role: Role): (r: seq<NavItem>)
    ensures |r| == (match role case Admin => 9 case Mentor => 6 case Pc => 6 case Mentee => 7)
    ensures r[..3] == BaseItems(role)
  {
    if role == Admin then
      BaseItems(role) + [
        NavItem("Mentors", "/admin/mentors"),
        NavItem("Mentees", "/admin/mentees"),
        NavItem("Allotment", "/admin/allotment"),
        NavItem("Colleges", "/admin/colleges"),
        NavItem("Analytics", "/admin/analytics"),
        NavItem("Settings", "/admin/settings") ]
    else if role == Mentor then
      BaseItems(role) + [
        NavItem("My Mentees", "/mentor/mentees"),
        NavItem("Availability", "/mentor/availability"),
        NavItem("Feedback", "/mentor/feedback") ]
    else if role == Pc then
      BaseItems(role) + [
        NavItem("Mentees", "/pc/mentees"),
        NavItem("Meetings", "/pc/meetings"),
        NavItem("Analytics", "/pc/analytics") ]
    else
      BaseItems(role) + [
        NavItem("My Mentors", "/mentee/mentors"),
        NavItem("Book Session", "/mentee/book"),
        NavItem("Feedback", "/mentee/feedback"),
        NavItem("Resources", "/mentee/resources") ]
  }

  /** A menu entry is highlighted when it links to the current path. */
  predicate IsActive(pathname: string, item: NavItem) {
    pathname == item.href
  }

  /** The number of highlighted entries. */
  function ActiveCount(items: seq<NavItem>, pathname: string): nat {
    if items == [] then 0
    else (if IsActive(pathname, items[0]) then 1 else 0) + ActiveCount(items[1..], pathname)
  }

  predicate DistinctHrefs(items: seq<NavItem>) {
    forall i, j :: 0 <= i < j < |items| ==> items[i].href != items[j].href
  }

  /** The links of a menu, in order. */
  function Hrefs(items: seq<NavItem>): seq<string> {
    seq(|items|, k requires 0 <= k < |items| => items[k].href)
  }

  /** The number of highlighted entries is the number of times the path
      occurs among the menu's links. */
  lemma {:induction false} ActiveCountIsOccurrences(items: seq<NavItem>, pathname: string)
    ensures ActiveCount(items, pathname) == multiset(Hrefs(items))[pathname]
  {
    if items != [] {
      ActiveCountIsOccurrences(items[1..], pathname);
      assert Hrefs(items) == [items[0].href] + Hrefs(items[1..]);
    }
  }

  /** With distinct links, at most one entry is highlighted, and one is
      exactly when the path is among the links. */
  lemma {:induction false} AtMostOneActive(items: seq<NavItem>, pathname: string)
    requires DistinctHrefs(items)
    ensures ActiveCount(items, pathname) <= 1
    ensures ActiveCount(items, pathname) == 1 <==> exists k :: 0 <= k < |items| && IsActive(pathname, items[k])
  {
    if items != [] {
      var rest := items[1..];
      assert DistinctHrefs(rest) by {
        forall i, j | 0 <= i < j < |rest| ensures rest[i].href != rest[j].href {
          assert rest[i] == items[i + 1] && rest[j] == items[j + 1];
        }
      }
      AtMostOneActive(rest, pathname);
      if IsActive(pathname, items[0]) {
        forall k | 0 <= k < |rest| ensures !IsActive(pathname, rest[k]) {
          assert rest[k] == items[k + 1];
        }
      }
      if exists k :: 0 <= k < |items| && IsActive(pathname, items[k]) {
        var k :| 0 <= k < |items| && IsActive(pathname, items[k]);
        if k > 0 {
          assert IsActive(pathname, rest[k - 1]);
        }
      }
      forall k | 0 <= k < |rest| && IsActive(pathname, rest[k])
        ensures IsActive(pathname, items[k + 1])
      {
      }
    }
  }

  /** The administrator's menu, entry by entry and link by link. */
  lemma AdminMenu()
    ensures NavItems(Admin) == [
      NavItem("Dashboard", "/admin/dashboard"), NavItem("Profile", "/admin/profile"),
      NavItem("Meetings", "/admin/meetings"), NavItem("Mentors", "/admin/mentors"),
      NavItem("Mentees", "/admin/mentees"), NavItem("Allotment", "/admin/allotment"),
      NavItem("Colleges", "/admin/colleges"), NavItem("Analytics", "/admin/analytics"),
      NavItem("Settings", "/admin/settings")]
    ensures Hrefs(NavItems(Admin)) == [
      "/admin/dashboard", "/admin/profile", "/admin/meetings", "/admin/mentors", "/admin/mentees",
      "/admin/allotment", "/admin/colleges", "/admin/analytics", "/admin/settings"]
  {
    RolePathSpelled(Admin, "dashboard");
    RolePathSpelled(Admin, "profile");
    RolePathSpelled(Admin, "meetings");
    assert "/admin/" + "dashboard" == "/admin/dashboard";
    assert "/admin/" + "profile" == "/admin/profile";
    assert "/admin/" + "meetings" == "/admin/meetings";
  }

  /** The mentor's menu, entry by entry and link by link. */
  lemma MentorMenu()
    ensures NavItems(Mentor) == [
      NavItem("Dashboard", "/mentor/dashboard"), NavItem("Profile", "/mentor/profile"),
      NavItem("Meetings", "/mentor/meetings"), NavItem("My Mentees", "/mentor/mentees"),
      NavItem("Availability", "/mentor/availability"), NavItem("Feedback", "/mentor/feedback")]
    ensures Hrefs(NavItems(Mentor)) == [
      "/mentor/dashboard", "/mentor/profile", "/mentor/meetings", "/mentor/mentees",
      "/mentor/availability", "/mentor/feedback"]
  {
    RolePathSpelled(Mentor, "dashboard");
    RolePathSpelled(Mentor, "profile");
    RolePathSpelled(Mentor, "meetings");
    assert "/mentor/" + "dashboard" == "/mentor/dashboard";
    assert "/mentor/" + "profile" == "/mentor/profile";
    assert "/mentor/" + "meetings" == "/mentor/meetings";
  }

  /** The mentee's menu, entry by entry and link by link. */
  lemma MenteeMenu()
    ensures NavItems(Mentee) == [
      NavItem("Dashboard", "/mentee/dashboard"), NavItem("Profile", "/mentee/profile"),
      NavItem("Meetings", "/mentee/meetings"), NavItem("My Mentors", "/mentee/mentors"),
      NavItem("Book Session", "/mentee/book"), NavItem("Feedback", "/mentee/feedback"),
      NavItem("Resources", "/mentee/resources")]
    ensures Hrefs(NavItems(Mentee)) == [
      "/mentee/dashboard", "/mentee/profile", "/mentee/meetings", "/mentee/mentors",
      "/mentee/book", "/mentee/feedback", "/mentee/resources"]
  {
    RolePathSpelled(Mentee, "dashboard");
    RolePathSpelled(Mentee, "profile");
    RolePathSpelled(Mentee, "meetings");
    assert "/mentee/" + "dashboard" == "/mentee/dashboard";
    assert "/mentee/" + "profile" == "/mentee/profile";
    assert "/mentee/" + "meetings" == "/mentee/meetings";
  }

  /** The program coordinator's menu, entry by entry and link by link. */
  lemma PcMenu()
    ensures NavItems(Pc) == [
      NavItem("Dashboard", "/pc/dashboard"), NavItem("Profile", "/pc/profile"),
      NavItem("Meetings", "/pc/meetings"), NavItem("Mentees", "/pc/mentees"),
      NavItem("Meetings", "/pc/meetings"), NavItem("Analytics", "/pc/analytics")]
    ensures Hrefs(NavItems(Pc)) == [
      "/pc/dashboard", "/pc/profile", "/pc/meetings", "/pc/mentees", "/pc/meetings", "/pc/analytics"]
  {
    RolePathSpelled(Pc, "dashboard");
    RolePathSpelled(Pc, "profile");
    RolePathSpelled(Pc, "meetings");
    assert "/pc/" + "dashboard" == "/pc/dashboard";
    assert "/pc/" + "profile" == "/pc/profile";
    assert "/pc/" + "meetings" == "/pc/meetings";
  }

  /** Every role's menu, link by link. */
  lemma NavHrefsSpelled(role: Role)
    ensures role == Admin ==> Hrefs(NavItems(role)) == [
      "/admin/dashboard", "/admin/profile", "/admin/meetings", "/admin/mentors", "/admin/mentees",
      "/admin/allotment", "/admin/colleges", "/admin/analytics", "/admin/settings"]
    ensures role == Mentor ==> Hrefs(NavItems(role)) == [
      "/mentor/dashboard", "/mentor/profile", "/mentor/meetings", "/mentor/mentees",
      "/mentor/availability", "/mentor/feedback"]
    ensures role == Mentee ==> Hrefs(NavItems(role)) == [
      "/mentee/dashboard", "/mentee/profile", "/mentee/meetings", "/mentee/mentors",
      "/mentee/book", "/mentee/feedback", "/mentee/resources"]
    ensures role == Pc ==> Hrefs(NavItems(role)) == [
      "/pc/dashboard", "/pc/profile", "/pc/meetings", "/pc/mentees", "/pc/meetings", "/pc/analytics"]
  {
    match role
    case Admin => AdminMenu();
    case Mentor => MentorMenu();
    case Mentee => MenteeMenu();
    case Pc => PcMenu();
  }

  /** Every menu opens with the role's dashboard, profile and meetings. */
  lemma NavItemsStart(role: Role)
    ensures NavItems(role)[0] == NavItem("Dashboard", "/" + RoleName(role) + "/dashboard")
    ensures NavItems(role)[1] == NavItem("Profile", "/" + RoleName(role) + "/profile")
    ensures NavItems(role)[2] == NavItem("Meetings", "/" + RoleName(role) + "/meetings")
  {
    var r := NavItems(role);
    assert r[..3][0] == r[0] && r[..3][1] == r[1] && r[..3][2] == r[2];
    assert RolePath(role, "dashboard") == "/" + RoleName(role) + "/dashboard";
    assert RolePath(role, "profile") == "/" + RoleName(role) + "/profile";
    assert RolePath(role, "meetings") == "/" + RoleName(role) + "/meetings";
  }

  /** A menu whose list of links has no repeat has distinct links. */
  lemma DistinctLinks(items: seq<NavItem>)
    requires forall i, j :: 0 <= i < j < |Hrefs(items)| ==> Hrefs(items)[i] != Hrefs(items)[j]
    ensures DistinctHrefs(items)
  {
    assert forall k :: 0 <= k < |items| ==> items[k].href == Hrefs(items)[k];
  }

  /** Admins, mentors and mentees never see two entries with the same link. */
  lemma NavHrefsDistinct(role: Role)
    requires role != Pc
    ensures DistinctHrefs(NavItems(role))
  {
    match role
    case Admin => AdminMenu(); DistinctLinks(NavItems(Admin));
    case Mentor => MentorMenu(); DistinctLinks(NavItems(Mentor));
    case Mentee => MenteeMenu(); DistinctLinks(NavItems(Mentee));
  }

  /** So for those roles at most one sidebar entry is highlighted. */
  lemma NavAtMostOneActive(role: Role, pathname: string)
    requires role != Pc
    ensures ActiveCount(NavItems(role), pathname) <= 1
  {
    NavHrefsDistinct(role);
    AtMostOneActive(NavItems(role), pathname);
  }

  /** The coordinator menu lists "/pc/meetings" twice, as its third and its
      fifth entry, so on that page two entries are highlighted. */
  lemma PcMeetingsTwice()
    ensures NavItems(Pc)[2].href == NavItems(Pc)[4].href == "/pc/meetings"
    ensures multiset(Hrefs(NavItems(Pc)))["/pc/meetings"] == 2
    ensures ActiveCount(NavItems(Pc), "/pc/meetings") == 2
  {
    var items := NavItems(Pc);
    PcMenu();
    assert Hrefs(items)[2] == items[2].href && Hrefs(items)[4] == items[4].href;
    ActiveCountIsOccurrences(items, "/pc/meetings");
  }

  /** Without its fifth entry the coordinator menu has distinct links: the
      repeated meetings link is its only repeat. */
  lemma PcOtherLinksDistinct()
    ensures DistinctHrefs(NavItems(Pc)[..4] + NavItems(Pc)[5..])
  {
    var items := NavItems(Pc);
    PcMenu();
    var h := Hrefs(items);
    var rest := items[..4] + items[5..];
    assert Hrefs(rest) == h[..4] + h[5..];
    assert Hrefs(rest) == ["/pc/dashboard", "/pc/profile", "/pc/meetings", "/pc/mentees", "/pc/analytics"];
    DistinctLinks(rest);
  }
}
