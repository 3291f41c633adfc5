# Mentorship platform: registration form and sidebar navigation

This project models the two pieces of the mentorship-platform dashboard that
hold decision logic of their own:

- **The registration page** (`app/register/page.tsx`). Its view state is the
  chosen role tab, the ordered list of selected interests, the custom-interest
  text box (its text and whether it is shown) and the admin registration code
  with its error message. `Register.RegisterForm` is a class with exactly those
  fields, and each event handler is a method on it:
  - ticking an interest checkbox;
  - typing a custom interest and pressing "Add";
  - removing an interest badge;
  - typing the admin code;
  - switching the role tab;
  - submitting the form.

  The list updates inside the handlers (`filter` and append) are pure
  functions in module `Interests`. The `trim` the "Add" button applies is in
  module `Whitespace`. The submit decision is the function
  `Register.RegisterOutcome`: a wrong admin code is rejected with a message,
  a mentor goes to `/pending-approval`, and everyone else goes to `/login`.
  Navigation (`router.push`) is modelled as the target path that
  `HandleRegister` returns.
- **The dashboard sidebar** (`components/app-sidebar.tsx`). Module `Sidebar`
  holds the menu each of the four roles gets, and the rule that an entry is
  highlighted when its link equals the current path. Module `Initials` holds
  the avatar fallback, which turns a display name into the upper-cased first
  letters of its space-separated pieces.

Invariants and properties proved:

- The selected-interest list never holds a duplicate.
  - Ticking a box flips that interest's membership. An interest that was absent
    is appended at the end. One that was present loses every occurrence, and
    the rest keep their order.
  - Ticking "Other" only reveals the text box.
  - Removing an interest is order-preserving and idempotent.
- "Add" appends exactly the trimmed text and clears the box. If the trimmed
  text is empty or already selected, it changes nothing.
- Typing an admin code always clears the error. A rejected submit sets a
  non-empty error and navigates nowhere.
- Menu lengths are exact: admin 9, mentor 6, program coordinator 6, mentee 7.
  - Every menu opens with Dashboard, Profile and Meetings under `/${role}/`.
  - The admin, mentor and mentee menus have distinct links, so at most one
    entry is highlighted.
  - The program coordinator menu lists `/pc/meetings` twice, as its third and
    fifth entries. On that page two entries are highlighted.
- The initials are the upper-cased word starts of the name, in order. There is
  one letter per non-empty piece of `split(" ")`. Joining the pieces with a
  space gives back the name.

## Model

| member | source | states |
|---|---|---|
| Interests.RemoveAll | app/register/page.tsx:65-67 | the filtered list holds no occurrence of the removed interest and keeps every other element with its multiplicity |
| Interests.RemoveAllAbsent | app/register/page.tsx:51 | filtering out an interest that is not in the list returns the list unchanged |
| Interests.RemoveAllAppend | app/register/page.tsx:66 | filtering distributes over concatenation, so the surviving elements keep their relative order |
| Interests.RemoveAllIsSubsequence | app/register/page.tsx:66 | the filtered list is a subsequence of the original |
| Interests.RemoveAllIdempotent | app/register/page.tsx:65-67 | removing the same interest twice is the same as removing it once |
| Interests.RemoveAllKeepsOthers | app/register/page.tsx:51 | every other interest keeps its number of occurrences and its membership |
| Interests.RemoveAllNoDuplicates | app/register/page.tsx:66 | filtering a duplicate-free list gives a duplicate-free list |
| Interests.AppendFreshNoDuplicates | app/register/page.tsx:59-60 | appending an interest that is not yet selected keeps the list duplicate-free |
| Interests.Toggle | app/register/page.tsx:49-55 | the checkbox updater: the toggled interest's membership flips and every other interest keeps its number of occurrences |
| Interests.ToggleOrder | app/register/page.tsx:49-55 | an absent interest is appended at the end; a present one is removed, the list gets shorter and the rest keep their order |
| Interests.ToggleNoDuplicates | app/register/page.tsx:50-53 | toggling keeps the list duplicate-free |
| Interests.ToggleTwice | app/register/page.tsx:49-55 | ticking an unticked interest and unticking it again restores the list |
| Whitespace.TrimStart | app/register/page.tsx:59 | the result is a suffix of the input and does not start with white space |
| Whitespace.TrimStartDropsWhiteSpace | app/register/page.tsx:59 | what the leading trim drops is all white space |
| Whitespace.TrimEnd | app/register/page.tsx:59 | the result is a prefix of the input and does not end with white space |
| Whitespace.TrimEndDropsWhiteSpace | app/register/page.tsx:59 | what the trailing trim drops is all white space |
| Whitespace.Trim | app/register/page.tsx:59 | `otherInterest.trim()`: the result is no longer than the input and has no white space at either end |
| Whitespace.TrimIsSlice | app/register/page.tsx:59 | the trimmed text is a contiguous slice of the input with only white space cut off either side |
| Whitespace.TrimEmpty | app/register/page.tsx:59 | the trimmed text is empty exactly when the input is all white space |
| Whitespace.TrimIdempotent | app/register/page.tsx:59 | trimming twice equals trimming once |
| Register.AcceptedCustomInterest | app/register/page.tsx:59 | a custom interest is accepted exactly when its trimmed text is non-empty and not yet selected; what is accepted is the trimmed text |
| Register.BlankCustomInterestRejected | app/register/page.tsx:59 | text made only of white space is never accepted |
| Register.RegisterOutcome | app/register/page.tsx:73-88 | the submit is rejected exactly for an admin with a wrong code, with a non-empty message; otherwise a mentor is sent to /pending-approval and anyone else to /login |
| Register.RegisterDestinations | app/register/page.tsx:73-88 | with the admin code "GEC2025$%": a wrong admin code is rejected, a correct one leads to /login, a mentor to /pending-approval, any other role to /login |
| Register.RegisterForm.Checked | app/register/page.tsx:146-148 | the checkbox's `checked` expression: the interest is selected, or it is "Other" and the text box is shown; it has no contract of its own, and HandleInterestChange's contract states that a click flips it |
| Register.RegisterForm.constructor | app/register/page.tsx:21-26 | the form opens on the mentee tab with no interests, an empty hidden text box, and an empty code and error |
| Register.RegisterForm.SetRole | app/register/page.tsx:100 | switching the tab stores the new role |
| Register.RegisterForm.HandleInterestChange | app/register/page.tsx:43-56 | "Other" shows the text box and leaves the list alone; any other interest is toggled and its checkbox flips; the list stays duplicate-free |
| Register.RegisterForm.SetOtherInterest | app/register/page.tsx:163 | typing into the text box stores the text |
| Register.RegisterForm.AddOtherInterest | app/register/page.tsx:58-63 | an accepted custom interest is appended and the box cleared; otherwise list and text are unchanged; the list stays duplicate-free |
| Register.RegisterForm.RemoveInterest | app/register/page.tsx:65-67 | the list becomes the filtered list; the badge's checkbox is unticked unless it is the revealed "Other" box |
| Register.RegisterForm.SetAdminCode | app/register/page.tsx:344-347 | typing the admin code stores it and always clears the error |
| Register.RegisterForm.HandleRegister | app/register/page.tsx:69-89 | a rejected submit sets the error and returns no target; otherwise it returns the target and leaves the error as it was |
| Sidebar.BaseItems | components/app-sidebar.tsx:45-61 | there are three base entries |
| Sidebar.NavItems | components/app-sidebar.tsx:44-161 | the menu has 9 entries for admin, 6 for mentor, 6 for pc and 7 for mentee, and opens with the base entries |
| Sidebar.NavItemsStart | components/app-sidebar.tsx:45-61 | every menu opens with Dashboard, Profile and Meetings at /{role}/dashboard, /{role}/profile and /{role}/meetings |
| Sidebar.AdminMenu | components/app-sidebar.tsx:63-96 | the admin menu entry by entry, title and link, base entries (lines 45-61) spelled under /admin/ |
| Sidebar.MentorMenu | components/app-sidebar.tsx:97-115 | the mentor menu entry by entry, title and link, base entries (lines 45-61) spelled under /mentor/ |
| Sidebar.PcMenu | components/app-sidebar.tsx:116-134 | the program coordinator menu entry by entry, title and link, base entries (lines 45-61) spelled under /pc/ |
| Sidebar.MenteeMenu | components/app-sidebar.tsx:135-159 | the mentee menu entry by entry, title and link, base entries (lines 45-61) spelled under /mentee/ |
| Sidebar.NavHrefsSpelled | components/app-sidebar.tsx:63-160 | each role's links, in order |
| Sidebar.NavHrefsDistinct | components/app-sidebar.tsx:63-160 | the admin, mentor and mentee menus have pairwise distinct links |
| Sidebar.IsActive | components/app-sidebar.tsx:187 | an entry is highlighted exactly when its link equals the current path; it has no contract of its own, and the lemmas below count the entries it highlights |
| Sidebar.Hrefs | components/app-sidebar.tsx:185-188 | the menu's links in order; no contract of its own, used as the reference list by the lemmas below |
| Sidebar.ActiveCountIsOccurrences | components/app-sidebar.tsx:187 | the number of highlighted entries is the number of times the path occurs among the menu's links |
| Sidebar.AtMostOneActive | components/app-sidebar.tsx:187 | with distinct links, at most one entry is highlighted, and exactly one when some link equals the path |
| Sidebar.NavAtMostOneActive | components/app-sidebar.tsx:185-187 | for admin, mentor and mentee at most one sidebar entry is highlighted |
| Sidebar.PcMeetingsTwice | components/app-sidebar.tsx:116-134 | the pc menu has /pc/meetings as its third and fifth entries, so that link occurs twice and two entries are highlighted on that page |
| Sidebar.PcOtherLinksDistinct | components/app-sidebar.tsx:116-134 | without its fifth entry the pc menu's links are distinct: the meetings link is its only repeat |
| Initials.Split | components/app-sidebar.tsx:168 | splitting yields at least one piece and no piece holds a space |
| Initials.Join | components/app-sidebar.tsx:168 | `join(sep)`; no contract of its own: it is the inverse that SplitJoin proves `split` against |
| Initials.SplitJoin | components/app-sidebar.tsx:168 | joining the pieces with a space gives back the name |
| Initials.SplitCount | components/app-sidebar.tsx:168 | there is one more piece than there are spaces |
| Initials.Initial | components/app-sidebar.tsx:169 | `part[0]` as `join` renders it: at most one character, empty exactly for an empty piece, otherwise the piece's first character |
| Initials.FirstChars | components/app-sidebar.tsx:169-170 | `map(part => part[0]).join("")`: one character per non-empty piece and none per empty piece |
| Initials.UpperChar | components/app-sidebar.tsx:171 | the result is never a lower-case ASCII letter; a character that changes was a lower-case letter and becomes its upper-case partner |
| Initials.ToUpper | components/app-sidebar.tsx:171 | the length is kept, no lower-case ASCII letter is left, and every character that changes was a lower-case letter now upper-cased |
| Initials.FirstCharsAreWordStarts | components/app-sidebar.tsx:169-170 | the first characters of the pieces are exactly the characters that start a word |
| Initials.GetInitials | components/app-sidebar.tsx:166-172 | the initials are the upper-cased word starts of the name, in order; there is one letter per non-empty piece, so an empty name has none |
| Initials.InitialsExample | components/app-sidebar.tsx:166-172 | "a  b" gives "AB": the empty piece left by the double space adds nothing |

## Left out

- Markup, styling, icons, animations and the UI component library. They carry no behaviour; a menu entry's icon is dropped from `Sidebar.NavItem`.
- Next.js routing. `router.push` becomes the path that `HandleRegister` returns. `Link` and `usePathname` are not modelled; the current path is a parameter of the highlight rule.
- `e.preventDefault()` in the submit handler, because it is browser event handling.
- The uncontrolled form inputs, because the code never reads them:
  - first and last name, email, password and password confirmation (all three tabs);
  - the mentee's college and the mentee's "Verification Code" (app/register/page.tsx:191-192), which, unlike the admin code, is never checked against anything;
  - the mentor's job title, company, years of experience, bio and LinkedIn profile (app/register/page.tsx:281-302).
- The browser's `required`, `type="email"`, `type="url"` and `min` checks. The password confirmation is never compared in the code.
- React's asynchronous state updates. Each handler is modelled as running to completion on the current state. `addOtherInterest` checks the current list but appends through an updater on the pending list; with one event at a time the two are the same.
- The sidebar's dropdown links (`/${role}/profile`, `/${role}/settings`, `/login`), because they are constant markup with no decision.
- Initials.UpperChar: upper-cases only the ASCII letters; full Unicode case mapping in `toUpperCase` (which can change a string's length) is not modelled.
- Initials.Initial: takes the first character of a piece; UTF-16 indexing in `part[0]`, which can split a surrogate pair, is not modelled.
- The admin registration code as a security mechanism. It is modelled only as an equality guard, the `expected` parameter of `Register.RegisterOutcome`.
- The landing page, the pending-approval page and the dashboard pages (directory filtering, allotment, booking). They are not part of this model.
