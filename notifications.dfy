/**
 * The page's notification banner: `showNotification` and the icon it picks
 * with `getNotificationIcon`.
 */
module Notifications {
  import opened Strings

  /** A banner's content: its text and its kind ("success", "error",
      "info", ...), which also names its CSS class `notification-<kind>`. */
  datatype Notification = Notification(message: string, kind: string)

  /** The kind `showNotification` uses when it is given none. */
  const DefaultKind: string := "info"

  /** The kinds with an icon of their own. */
  const IconKinds: set<string> := {"success", "error", "warning", "info"}

  /** The Font Awesome icon name of each kind. */
  const Icons: map<string, string> := map[
    "success" := "check-circle",
    "error" := "exclamation-circle",
    "warning" := "exclamation-triangle",
    "info" := "info-circle"
  ]

  /** The icon shown for a kind the table does not know. */
  const FallbackIcon: string := "info-circle"

  /** `getNotificationIcon(type)`: a kind of the table gets its own icon; any
      other kind gets the information icon, the same as "info". */
  function Icon(kind: string): (r: string)
    ensures r in Icons.Values
    ensures kind in IconKinds ==> r == Icons[kind]
    ensures r == FallbackIcon <==> kind !in IconKinds || kind == DefaultKind
  {
    assert Icons[DefaultKind] == FallbackIcon;
    LookupOr(Icons, kind, FallbackIcon)
  }

  /** The four kinds of the table show four different icons. */
  lemma IconInjective(a: string, b: string)
    requires a in IconKinds && b in IconKinds
    ensures Icon(a) == Icon(b) <==> a == b
  {
  }

  /** A banner element on screen.  Each call of `showNotification` creates a
      new element, and its close button and its five-second timer refer to
      that element: `id` tells elements with the same content apart. */
  datatype Banner = Banner(id: nat, notice: Notification)

  /** The banners on screen, and the identity the next one will get. */
  datatype Screen = Screen(shown: seq<Banner>, next: nat)

  /** Every banner on screen was created before `next`. */
  predicate Valid(screen: Screen) {
    forall b :: b in screen.shown ==> b.id < screen.next
  }

  /** At most one banner is on screen. */
  predicate AtMostOne(screen: Screen) {
    |screen.shown| <= 1
  }

  /** `showNotification(message, kind)`: every banner on screen is removed
      and a new element holding `n` is shown. */
  function ShowNotification(screen: Screen, n: Notification): (r: Screen)
    ensures r.shown == [Banner(screen.next, n)]
    ensures r.next == screen.next + 1
  {
    Screen([Banner(screen.next, n)], screen.next + 1)
  }

  /** Closing the element `id`, with its button or when its timer fires: it
      leaves the screen, and nothing else does.  A timer whose element was
      already removed changes nothing. */
  function Dismiss(screen: Screen, id: nat): (r: Screen)
    ensures forall b :: b in r.shown <==> b in screen.shown && b.id != id
    ensures r.next == screen.next
  {
    Screen(Remove(screen.shown, id), screen.next)
  }

  /** `s` without the banners whose identity is `id`. */
  function Remove(s: seq<Banner>, id: nat): (r: seq<Banner>)
    ensures forall b :: b in r <==> b in s && b.id != id
    ensures |r| <= |s|
    ensures (forall b :: b in s ==> b.id != id) ==> r == s
  {
    if s == [] then []
    else if s[0].id == id then Remove(s[1..], id)
    else [s[0]] + Remove(s[1..], id)
  }

  /** Showing and closing banners keeps at most one on screen, and the last
      one shown stays on screen until its own element is closed. */
  lemma AtMostOneBanner(screen: Screen, n: Notification, id: nat)
    requires Valid(screen) && AtMostOne(screen)
    ensures Valid(ShowNotification(screen, n)) && AtMostOne(ShowNotification(screen, n))
    ensures Valid(Dismiss(screen, id)) && AtMostOne(Dismiss(screen, id))
    ensures id != screen.next ==>
      Dismiss(ShowNotification(screen, n), id).shown == ShowNotification(screen, n).shown
    ensures Dismiss(ShowNotification(screen, n), screen.next).shown == []
  {
    var s := ShowNotification(screen, n).shown;
    assert s[1..] == [];
    assert Remove(s[1..], id) == [];
  }

  /** When a banner replaces another, the replaced banner's timer does not
      close the new one, even when both have the same text and kind: the
      new banner stays until its own timer fires. */
  lemma StaleTimerKeepsNewBanner(screen: Screen, first: Notification, second: Notification)
    ensures var s1 := ShowNotification(screen, first);
      var s2 := ShowNotification(s1, second);
      Dismiss(s2, screen.next).shown == [Banner(screen.next + 1, second)] &&
      Dismiss(Dismiss(s2, screen.next), screen.next + 1).shown == []
  {
    var s2 := ShowNotification(ShowNotification(screen, first), second);
    assert s2.shown[1..] == [];
  }
}
