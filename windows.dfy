/** The per-(user, sensor) windows of the streaming detector: the dictionary
    key and the bounded FIFO (`deque(maxlen=window_size)`) each key maps to. */
module Windows {

  /** The dictionary key: the user id, an underscore and the sensor type,
      concatenated with no escaping. */
  function Key(userId: string, sensorType: string): string
  {
    userId + "_" + sensorType
  }

  /** Two different (user, sensor) pairs can share a window. */
  lemma KeyCollision()
    ensures ("a_b", "c") != ("a", "b_c")
    ensures Key("a_b", "c") == Key("a", "b_c")
  {
  }

  /** The first underscore of a key whose user has none sits right after the user. */
  lemma {:induction false} KeySeparator(u: string, s: string)
    requires '_' !in u
    ensures |Key(u, s)| > |u| && Key(u, s)[|u|] == '_'
    ensures forall i | 0 <= i < |u| :: Key(u, s)[i] == u[i] && Key(u, s)[i] != '_'
  {
    forall i | 0 <= i < |u| ensures Key(u, s)[i] == u[i] && Key(u, s)[i] != '_' {
      assert u[i] in u;
    }
  }

  /** Users without an underscore never collide. */
  lemma {:induction false} KeyInjective(u1: string, s1: string, u2: string, s2: string)
    requires '_' !in u1 && '_' !in u2
    requires Key(u1, s1) == Key(u2, s2)
    ensures u1 == u2 && s1 == s2
  {
    KeySeparator(u1, s1);
    KeySeparator(u2, s2);
    assert |u1| == |u2|;
    assert u1 == Key(u1, s1)[..|u1|];
    assert u2 == Key(u2, s2)[..|u2|];
    assert s1 == Key(u1, s1)[|u1| + 1..];
    assert s2 == Key(u2, s2)[|u2| + 1..];
  }

  /** The last n samples of s, oldest first (all of s when it is shorter). */
  function LastN(s: seq<real>, n: nat): (r: seq<real>)
    ensures |r| == if |s| <= n then |s| else n
  {
    if |s| <= n then s else s[|s| - n..]
  }

  /** `deque.append` on a deque of maxlen `cap`: the new sample goes to the
      right, and the leftmost (oldest) one is evicted when the deque is full. */
  function Slide(w: seq<real>, v: real, cap: nat): (r: seq<real>)
    requires cap >= 1 && |w| <= cap
    ensures r == LastN(w + [v], cap)
    ensures |r| <= cap && r[|r| - 1] == v
    ensures |w| < cap ==> r == w + [v]
    ensures |w| == cap ==> r == w[1..] + [v]
  {
    if |w| < cap then w + [v] else w[1..] + [v]
  }

  /** Appending the samples vs one at a time. */
  function FeedAll(w: seq<real>, vs: seq<real>, cap: nat): seq<real>
    requires cap >= 1 && |w| <= cap
    decreases |vs|
  {
    if |vs| == 0 then w else FeedAll(Slide(w, vs[0], cap), vs[1..], cap)
  }

  /** Trimming to the last n and then appending, then trimming again, is the
      same as appending and trimming once. */
  lemma {:induction false} LastNAbsorbs(a: seq<real>, b: seq<real>, n: nat)
    ensures LastN(LastN(a, n) + b, n) == LastN(a + b, n)
  {
    if |a| > n {
      SuffixOfConcat(a, b, |a| - n, n);
    }
  }

  /** The last n elements of a + b only depend on the part of a from k on,
      when that part is at least n long. */
  lemma {:induction false} SuffixOfConcat(a: seq<real>, b: seq<real>, k: nat, n: nat)
    requires k <= |a| && |a| - k == n
    ensures LastN(a[k..] + b, n) == LastN(a + b, n)
  {
    var c := a[k..] + b;
    var d := a + b;
    assert |c| == n + |b| && |d| == |a| + |b|;
    assert forall i | |c| - n <= i < |c| :: c[i] == d[i + k];
    assert c[|c| - n..] == d[|d| - n..];
  }

  /** After any run of appends, a window holds exactly the last cap samples
      of everything it was given, in arrival order. */
  lemma {:induction false} FeedAllKeepsLast(w: seq<real>, vs: seq<real>, cap: nat)
    requires cap >= 1 && |w| <= cap
    ensures FeedAll(w, vs, cap) == LastN(w + vs, cap)
    decreases |vs|
  {
    if |vs| == 0 {
      assert w + vs == w;
    } else {
      FeedAllKeepsLast(Slide(w, vs[0], cap), vs[1..], cap);
      LastNAbsorbs(w + [vs[0]], vs[1..], cap);
      assert w + [vs[0]] + vs[1..] == w + vs;
    }
  }

  /** Starting from a fresh window: the window length is min(cap, n) after n
      samples, and the window holds the last of them. */
  lemma {:induction false} FreshWindow(vs: seq<real>, cap: nat)
    requires cap >= 1
    ensures FeedAll([], vs, cap) == LastN(vs, cap)
    ensures |FeedAll([], vs, cap)| == if |vs| <= cap then |vs| else cap
  {
    FeedAllKeepsLast([], vs, cap);
    assert [] + vs == vs;
  }

  /** The default `window_size` of the streaming detector. */
  const DefaultWindowSize: nat := 20

  /** The cold-start gate: a window is evaluated once it holds at least
      `window_size // 2` samples (floor division). */
  predicate Warm(w: seq<real>, cap: nat)
  {
    |w| >= cap / 2
  }

  /** With the default window size of 20 the first evaluation of a fresh key
      happens on its 10th sample. */
  lemma {:induction false} DefaultFirstEvaluation(vs: seq<real>)
    ensures Warm(FeedAll([], vs, DefaultWindowSize), DefaultWindowSize) <==> |vs| >= 10
  {
    FreshWindow(vs, DefaultWindowSize);
  }
}
