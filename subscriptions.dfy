/**
 * The topic map `App._start` hands to the bus client: the statically
 * registered `SUBSCRIPTIONS` overlaid with the caller's
 * `subscribe_topics_and_callbacks`, then, when `listen_topic_only_if_include`
 * is given, cut down to the topics that contain one of its keywords.
 */
module Subscriptions {
  import opened Common

  /** `sub` occurs in `s` starting at index `i`. */
  ghost predicate OccursAt(sub: string, s: string, i: int) {
    0 <= i <= |s| - |sub| && s[i..i + |sub|] == sub
  }

  /** `sub` occurs somewhere in `s` (the empty string occurs everywhere). */
  ghost predicate Occurs(sub: string, s: string) {
    exists i :: OccursAt(sub, s, i)
  }

  /** Python's `sub in s` on strings: substring containment. */
  function IsSubstring(sub: string, s: string): bool
    decreases |s|
  {
    |sub| <= |s| && (s[..|sub|] == sub || (|s| > 0 && IsSubstring(sub, s[1..])))
  }

  /** `IsSubstring` decides exactly whether `sub` occurs in `s`. */
  lemma {:induction false} IsSubstringIff(sub: string, s: string)
    ensures IsSubstring(sub, s) <==> Occurs(sub, s)
    decreases |s|
  {
    if |sub| > |s| {
      assert !Occurs(sub, s);
    } else if s[..|sub|] == sub {
      assert OccursAt(sub, s, 0);
    } else {
      assert |s| > 0;
      var t := s[1..];
      IsSubstringIff(sub, t);
      if Occurs(sub, t) {
        var i :| OccursAt(sub, t, i);
        assert s[i + 1..i + 1 + |sub|] == t[i..i + |sub|];
        assert OccursAt(sub, s, i + 1);
      }
      if Occurs(sub, s) {
        var i :| OccursAt(sub, s, i);
        assert i != 0;
        assert t[i - 1..i - 1 + |sub|] == s[i..i + |sub|];
        assert OccursAt(sub, t, i - 1);
      }
    }
  }

  /** Some element of `keywords` is a substring of `topic` (the inner loop of the filter). */
  predicate AnyIncluded(keywords: seq<string>, topic: Topic) {
    exists k :: 0 <= k < |keywords| && IsSubstring(keywords[k], topic)
  }

  /**
   * `SUBSCRIPTIONS.update(subscribe_topics_and_callbacks)`: every topic of
   * either map, with the caller's handler winning on a collision.
   */
  function Merged(registered: map<Topic, Handler>, supplied: map<Topic, Handler>): (r: map<Topic, Handler>)
    ensures r.Keys == registered.Keys + supplied.Keys
    ensures forall t :: t in supplied ==> r[t] == supplied[t]
    ensures forall t :: t in registered && t !in supplied ==> r[t] == registered[t]
  {
    registered + supplied
  }

  /** The map left once every topic containing none of the keywords is deleted. */
  function Filtered(m: map<Topic, Handler>, keywords: seq<string>): (r: map<Topic, Handler>)
    ensures r.Keys <= m.Keys
    ensures forall t :: t in r ==> r[t] == m[t]
    ensures keywords == [] ==> r == map[]
  {
    map t | t in m && AnyIncluded(keywords, t) :: m[t]
  }

  /** The map bound to `listen_topics_callbacks`. */
  function BuildSubscriptions(registered: map<Topic, Handler>, supplied: map<Topic, Handler>,
                              keywords: Option<seq<string>>): map<Topic, Handler>
  {
    var merged := Merged(registered, supplied);
    if keywords.None? then merged else Filtered(merged, keywords.value)
  }

  /** A topic survives the filter iff one of the keywords occurs in it. */
  lemma FilteredIff(m: map<Topic, Handler>, keywords: seq<string>, t: Topic)
    ensures t in Filtered(m, keywords) <==> t in m && exists k :: 0 <= k < |keywords| && Occurs(keywords[k], t)
  {
    forall k | 0 <= k < |keywords| {
      IsSubstringIff(keywords[k], t);
    }
  }

  /** Without an include list, the bus gets the merged map exactly. */
  lemma BuildWithoutInclude(registered: map<Topic, Handler>, supplied: map<Topic, Handler>)
    ensures BuildSubscriptions(registered, supplied, None) == Merged(registered, supplied)
    ensures BuildSubscriptions(registered, supplied, None).Keys == registered.Keys + supplied.Keys
  {
  }

  /**
   * With an include list, a topic is subscribed iff it was registered or
   * supplied and some keyword occurs in it; its handler is the caller's if
   * the caller supplied one and the registered one otherwise.
   */
  lemma BuildWithInclude(registered: map<Topic, Handler>, supplied: map<Topic, Handler>,
                         keywords: seq<string>, t: Topic)
    ensures var r := BuildSubscriptions(registered, supplied, Some(keywords));
            && (t in r <==> (t in registered || t in supplied) &&
                             exists k :: 0 <= k < |keywords| && Occurs(keywords[k], t))
            && (t in r && t in supplied ==> r[t] == supplied[t])
            && (t in r && t !in supplied ==> r[t] == registered[t])
  {
    FilteredIff(Merged(registered, supplied), keywords, t);
  }

  /** An empty include list leaves no subscription at all. */
  lemma EmptyIncludeRemovesAll(registered: map<Topic, Handler>, supplied: map<Topic, Handler>)
    ensures BuildSubscriptions(registered, supplied, Some([])) == map[]
  {
  }

  /** The filter keeps a topic of the map, with its handler, iff a keyword is a substring of it. */
  lemma FilteredAt(m: map<Topic, Handler>, keywords: seq<string>, t: Topic)
    requires t in m
    ensures t in Filtered(m, keywords) <==> AnyIncluded(keywords, t)
    ensures t in Filtered(m, keywords) ==> Filtered(m, keywords)[t] == m[t]
  {
  }

  /** A non-empty string whose first character never appears in `s` is not in `s`. */
  lemma {:induction false} NotSubstringWithoutFirstChar(sub: string, s: string)
    requires |sub| > 0 && forall i :: 0 <= i < |s| ==> s[i] != sub[0]
    ensures !IsSubstring(sub, s)
    decreases |s|
  {
    if |sub| <= |s| {
      assert s[..|sub|][0] != sub[0];
      NotSubstringWithoutFirstChar(sub, s[1..]);
    }
  }

  /** Of the test's three topics, exactly "foo" and "bar" contain "foo" or "bar". */
  lemma FooBarKeywords()
    ensures AnyIncluded(["foo", "bar"], "foo") && AnyIncluded(["foo", "bar"], "bar")
    ensures !AnyIncluded(["foo", "bar"], "start")
  {
    var keywords := ["foo", "bar"];
    assert IsSubstring(keywords[0], "foo") && IsSubstring(keywords[1], "bar");
    NotSubstringWithoutFirstChar("foo", "start");
    NotSubstringWithoutFirstChar("bar", "start");
  }

  /**
   * The scenario of the include-filter test: handlers for "start", "foo" and
   * "bar" with keywords ["foo", "bar"] leave "foo" and "bar" served and
   * "start" unsubscribed.
   */
  lemma IncludeFooBar(start: Handler, foo: Handler, bar: Handler)
    ensures BuildSubscriptions(map["start" := start, "foo" := foo, "bar" := bar], map[], Some(["foo", "bar"]))
            == map["foo" := foo, "bar" := bar]
  {
    var m := map["start" := start, "foo" := foo, "bar" := bar];
    assert Merged(m, map[]) == m;
    FooBarFilteredKeys(start, foo, bar);
  }

  /** Which of the test's topics the filter keeps, and with which handlers. */
  lemma FooBarFilteredKeys(start: Handler, foo: Handler, bar: Handler)
    ensures var r := Filtered(map["start" := start, "foo" := foo, "bar" := bar], ["foo", "bar"]);
            && r.Keys == {"foo", "bar"} && r["foo"] == foo && r["bar"] == bar
  {
    FooBarKeywords();
    var keywords := ["foo", "bar"];
    var m := map["start" := start, "foo" := foo, "bar" := bar];
    FilteredAt(m, keywords, "foo");
    FilteredAt(m, keywords, "bar");
    FilteredAt(m, keywords, "start");
  }


}
