/** Azure resource IDs of private link services, and the prefix test that assigns an ID to a workload cluster. */
module ResourceIds {

  const SUBSCRIPTIONS := "/subscriptions/"
  const RESOURCE_GROUPS := "/resourceGroups/"
  const PRIVATE_LINK_SERVICES := "/providers/" + "Microsoft.Network/privateLinkServices/"

  function GroupPrefix(subscription: string, group: string): string {
    SUBSCRIPTIONS + (subscription + (RESOURCE_GROUPS + group))
  }

  function LinkID(subscription: string, group: string, name: string): string {
    SUBSCRIPTIONS + (subscription + (RESOURCE_GROUPS + (group + (PRIVATE_LINK_SERVICES + name))))
  }

  predicate SlashFree(s: string) {
    '/' !in s
  }

  /** A slash-free segment ends where the next slash begins. */
  lemma SegmentPrefix(a: string, x: string, b: string, y: string)
    requires SlashFree(a) && SlashFree(b)
    requires x != [] && x[0] == '/' && y != [] && y[0] == '/'
    ensures a + x <= b + y <==> a == b && x <= y
  {
    if a + x <= b + y {
      assert (a + x)[|a|] == '/' && (b + y)[|b|] == '/';
      assert |a| == |b|;
      assert a == (a + x)[..|a|] && b == (b + y)[..|b|];
      assert x == (a + x)[|a|..] && y == (b + y)[|b|..];
    }
  }

  lemma SegmentInside(a: string, b: string, y: string)
    requires SlashFree(a) && y != [] && y[0] == '/'
    ensures a <= b + y <==> a <= b
  {
    assert (b + y)[|b|] == '/';
    if a <= b + y {
      assert |a| <= |b|;
      assert (b + y)[..|a|] == b[..|a|];
    }
  }

  lemma CommonHead(h: string, x: string, y: string)
    ensures h + x <= h + y <==> x <= y
    ensures h + x == h + y <==> x == y
  {
    assert (h + x)[|h|..] == x && (h + y)[|h|..] == y;
    if h + x <= h + y {
      assert (h + y)[|h|..|h + x|] == y[..|x|];
    }
  }

  /** The prefix test relates two clusters exactly when they share the subscription and one resource
      group name starts with the other: no slash closes the prefix. */
  lemma PrefixTestMeaning(s: string, g: string, s': string, g': string, name: string)
    requires SlashFree(s) && SlashFree(g) && SlashFree(s')
    ensures GroupPrefix(s, g) <= LinkID(s', g', name) <==> s == s' && g <= g'
  {
    var tail := g' + (PRIVATE_LINK_SERVICES + name);
    CommonHead(SUBSCRIPTIONS, s + (RESOURCE_GROUPS + g), s' + (RESOURCE_GROUPS + tail));
    SegmentPrefix(s, RESOURCE_GROUPS + g, s', RESOURCE_GROUPS + tail);
    CommonHead(RESOURCE_GROUPS, g, tail);
    SegmentInside(g, g', PRIVATE_LINK_SERVICES + name);
  }

  lemma SamePrefix(a: string, x: string, b: string, y: string)
    requires SlashFree(a) && SlashFree(b)
    requires x != [] && x[0] == '/' && y != [] && y[0] == '/'
    ensures a + x == b + y <==> a == b && x == y
  {
    if a + x == b + y {
      SegmentPrefix(a, x, b, y);
      SegmentPrefix(b, y, a, x);
    }
  }

  lemma LinkIDInjective(s: string, g: string, n: string, s': string, g': string, n': string)
    requires SlashFree(s) && SlashFree(g) && SlashFree(s') && SlashFree(g')
    ensures LinkID(s, g, n) == LinkID(s', g', n') <==> s == s' && g == g' && n == n'
  {
    var x, x' := PRIVATE_LINK_SERVICES + n, PRIVATE_LINK_SERVICES + n';
    CommonHead(SUBSCRIPTIONS, s + (RESOURCE_GROUPS + (g + x)), s' + (RESOURCE_GROUPS + (g' + x')));
    SamePrefix(s, RESOURCE_GROUPS + (g + x), s', RESOURCE_GROUPS + (g' + x'));
    CommonHead(RESOURCE_GROUPS, g + x, g' + x');
    SamePrefix(g, x, g', x');
    CommonHead(PRIVATE_LINK_SERVICES, n, n');
  }

  /** Within one cluster the ID determines the link name, whatever characters the parts hold. */
  lemma LinkIDInjectiveInName(s: string, g: string, n: string, n': string)
    ensures LinkID(s, g, n) == LinkID(s, g, n') <==> n == n'
  {
    var x, x' := PRIVATE_LINK_SERVICES + n, PRIVATE_LINK_SERVICES + n';
    CommonHead(SUBSCRIPTIONS, s + (RESOURCE_GROUPS + (g + x)), s + (RESOURCE_GROUPS + (g + x')));
    CommonHead(s, RESOURCE_GROUPS + (g + x), RESOURCE_GROUPS + (g + x'));
    CommonHead(RESOURCE_GROUPS, g + x, g + x');
    CommonHead(g, x, x');
    CommonHead(PRIVATE_LINK_SERVICES, n, n');
  }

  lemma CommonTail(x: string, y: string, t: string)
    ensures x + t == y + t <==> x == y
  {
    assert (x + t)[..|x|] == x && (y + t)[..|y|] == y;
    assert x + t == y + t ==> |x| == |y|;
  }

  /** For a fixed subscription and link name the ID determines the resource group. */
  lemma LinkIDInjectiveInGroup(s: string, g: string, g': string, n: string)
    ensures LinkID(s, g, n) == LinkID(s, g', n) <==> g == g'
  {
    var tail := PRIVATE_LINK_SERVICES + n;
    CommonHead(SUBSCRIPTIONS, s + (RESOURCE_GROUPS + (g + tail)), s + (RESOURCE_GROUPS + (g' + tail)));
    CommonHead(s, RESOURCE_GROUPS + (g + tail), RESOURCE_GROUPS + (g' + tail));
    CommonHead(RESOURCE_GROUPS, g + tail, g' + tail);
    CommonTail(g, g', tail);
  }

  lemma OwnPrefix(s: string, g: string, name: string)
    ensures GroupPrefix(s, g) <= LinkID(s, g, name)
  {
    var tail := PRIVATE_LINK_SERVICES + name;
    CommonHead(SUBSCRIPTIONS, s + (RESOURCE_GROUPS + g), s + (RESOURCE_GROUPS + (g + tail)));
    CommonHead(s, RESOURCE_GROUPS + g, RESOURCE_GROUPS + (g + tail));
    CommonHead(RESOURCE_GROUPS, g, g + tail);
  }

  /** A resource group "a" also matches the IDs of resource group "a-b". */
  lemma PrefixTestConfusesGroups()
    ensures "a" != "a-b" && GroupPrefix("s", "a") <= LinkID("s", "a-b", "n")
  {
    PrefixTestMeaning("s", "a", "s", "a-b", "n");
  }

  /** Without the slash-free condition, a subscription can imitate another cluster. */
  lemma PrefixTestConfusesSubscriptions(s: string, a: string, g: string, n: string)
    ensures GroupPrefix(s, a) <= LinkID(s + (RESOURCE_GROUPS + a), g, n)
  {
    var tail := RESOURCE_GROUPS + (g + (PRIVATE_LINK_SERVICES + n));
    assert (s + (RESOURCE_GROUPS + a)) + tail == s + (RESOURCE_GROUPS + (a + tail));
    CommonHead(SUBSCRIPTIONS, s + (RESOURCE_GROUPS + a), s + (RESOURCE_GROUPS + (a + tail)));
    CommonHead(s, RESOURCE_GROUPS + a, RESOURCE_GROUPS + (a + tail));
    CommonHead(RESOURCE_GROUPS, a, a + tail);
  }
}
