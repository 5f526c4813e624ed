/**
  The `Follower` record: one (user, follower) edge of the follower graph,
  stored under a composite string key built from both ids.
 */
module Follower {
  import opened Wrappers
  import opened Decimal

  datatype Follower = Follower(userId: Long, followerId: Long) {
    /**
      The composite key: the decimal text of `userId`, a ':' and the decimal
      text of `followerId`. Neither half can hold a ':', so the key holds
      exactly one.
     */
    function Id(): (s: string)
      ensures multiset(s)[':'] == 1
    {
      LongText(userId) + ":" + LongText(followerId)
    }
  }

  /** The no-argument constructor: both ids keep Java's default 0. */
  function DefaultFollower(): (f: Follower)
    ensures f.userId == 0 && f.followerId == 0
    ensures f.Id() == "0:0"
  {
    Follower(0, 0)
  }

  /** The two-argument constructor: the key of the new follower reads back as its arguments. */
  function NewFollower(userId: Long, followerId: Long): (f: Follower)
    ensures f.userId == userId && f.followerId == followerId
    ensures ParseId(f.Id()) == Some((userId, followerId))
  {
    IdRoundTrip(Follower(userId, followerId));
    Follower(userId, followerId)
  }

  /** The position of the first occurrence of `c` in `s`. */
  function IndexOf(s: string, c: char): (r: Option<nat>)
    ensures r.Some? ==> r.value < |s| && s[r.value] == c && c !in s[..r.value]
    ensures r.None? ==> c !in s
  {
    if s == [] then None
    else if s[0] == c then Some(0)
    else match IndexOf(s[1..], c)
      case None => None
      case Some(i) =>
        assert s[..i + 1] == [s[0]] + s[1..][..i];
        Some(i + 1)
  }

  /** A position holding `c` with no `c` before it is the one `IndexOf` finds. */
  lemma {:induction false} IndexOfAt(s: string, c: char, i: nat)
    requires i < |s| && s[i] == c && c !in s[..i]
    ensures IndexOf(s, c) == Some(i)
  {
    if i > 0 {
      assert s[0] == s[..i][0];
      assert s[1..][..i - 1] == s[..i][1..];
      IndexOfAt(s[1..], c, i - 1);
    }
  }

  /** In `a + [c] + b` with no `c` in `a`, the first `c` is the one after `a`. */
  lemma FirstSeparator(a: string, c: char, b: string)
    requires c !in a
    ensures IndexOf(a + [c] + b, c) == Some(|a|)
  {
    var s := a + [c] + b;
    assert s[..|a|] == a;
    IndexOfAt(s, c, |a|);
  }

  /** Splits a key at its first ':' and parses both halves as `long`s. */
  function ParseId(s: string): Option<(Long, Long)> {
    match IndexOf(s, ':')
    case None => None
    case Some(i) =>
      match (ParseLong(s[..i]), ParseLong(s[i + 1..]))
      case (Some(u), Some(f)) => Some((u, f))
      case _ => None
  }

  /** Splitting the key at its ':' and parsing both halves recovers both ids. */
  lemma IdRoundTrip(f: Follower)
    ensures ParseId(f.Id()) == Some((f.userId, f.followerId))
  {
    var a, b := LongText(f.userId), LongText(f.followerId);
    var s := f.Id();
    assert s == a + [':'] + b;
    FirstSeparator(a, ':', b);
    assert s[..|a|] == a;
    assert s[|a| + 1..] == b;
    LongTextRoundTrip(f.userId);
    LongTextRoundTrip(f.followerId);
  }

  /**
    The no-duplicates claim: two followers share a key exactly when they are
    the same (user, follower) pair.
   */
  lemma IdInjective(f: Follower, g: Follower)
    ensures f.Id() == g.Id() <==> f == g
  {
    IdRoundTrip(f);
    IdRoundTrip(g);
  }
}
