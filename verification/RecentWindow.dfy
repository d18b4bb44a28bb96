/** Bounded recency windows.

    The journal, the request cache, the interaction registry and the retained
    runtime all remember "the last few" identifiers in a queue and forget the
    oldest first. What such a queue promises is a spacing bound: an identifier
    refused while it is remembered can only come back after enough others. */
module RecentWindow {

  /** The last `n` elements, or all of them when there are fewer. */
  function Last<T>(s: seq<T>, n: nat): (r: seq<T>)
    ensures |r| == if |s| <= n then |s| else n
    ensures r == s[|s| - |r|..]
  {
    if |s| <= n then s else s[|s| - n..]
  }

  /** `window` holds the last `n` elements of `history`, said element by element. */
  ghost predicate IsTail<T>(window: seq<T>, history: seq<T>, n: nat) {
    && |window| == (if |history| <= n then |history| else n)
    && forall i {:trigger window[i]} :: 0 <= i < |window| ==> window[i] == history[|history| - |window| + i]
  }

  lemma TailIsLast<T>(window: seq<T>, history: seq<T>, n: nat)
    ensures IsTail(window, history, n) <==> window == Last(history, n)
  {
  }

  ghost predicate NoDup<T>(s: seq<T>) {
    forall i, j :: 0 <= i < j < |s| ==> s[i] != s[j]
  }

  /** Equal elements are more than `n` places apart: at least `n` others lie between them. */
  ghost predicate Spaced<T>(history: seq<T>, n: nat) {
    forall i, j :: 0 <= i < j < |history| && history[i] == history[j] ==> j - i > n
  }

  /** Remembering the last `n` of the window and the newcomer is remembering the last `n` of history. */
  lemma LastOfPush<T>(history: seq<T>, x: T, n: nat)
    ensures Last(history + [x], n) == Last(Last(history, n) + [x], n)
  {
  }

  lemma LastAt<T>(s: seq<T>, n: nat, i: nat)
    requires i < |Last(s, n)|
    ensures Last(s, n)[i] == s[|s| - |Last(s, n)| + i]
  {
  }

  lemma TailOfPush<T>(window: seq<T>, history: seq<T>, x: T, n: nat)
    requires IsTail(window, history, n)
    ensures IsTail(Last(window + [x], n), history + [x], n)
  {
    hide Last;
    var pushed, all := window + [x], history + [x];
    var kept := Last(pushed, n);
    forall i | 0 <= i < |kept|
      ensures kept[i] == all[|all| - |kept| + i]
    {
      LastAt(pushed, n, i);
      var j := |pushed| - |kept| + i;
      if j < |window| {
        assert window[j] == history[|history| - |window| + j];
      }
    }
  }

  lemma InLast<T>(s: seq<T>, n: nat, i: nat)
    requires i < |s| && |s| - i <= n
    ensures s[i] in Last(s, n)
  {
    var w := Last(s, n);
    assert w[i - (|s| - |w|)] == s[i];
  }

  /** Refusing whatever the window still holds keeps the whole history spaced. */
  lemma SpacedPush<T>(history: seq<T>, x: T, n: nat)
    requires Spaced(history, n)
    requires x !in Last(history, n)
    ensures Spaced(history + [x], n)
  {
    var h := history + [x];
    forall i, j | 0 <= i < j < |h| && h[i] == h[j]
      ensures j - i > n
    {
      if j == |history| && j - i <= n {
        InLast(history, n, i);
      }
    }
  }

  function Elements<T>(s: seq<T>): (r: set<T>) {
    set x | x in s
  }

  /** Forgetting the oldest element of a duplicate-free queue takes exactly it out of the set. */
  lemma ElementsOfTail<T>(s: seq<T>)
    requires s != [] && NoDup(s)
    ensures Elements(s[1..]) == Elements(s) - {s[0]}
    ensures NoDup(s[1..])
  {
    forall x | x in Elements(s) - {s[0]}
      ensures x in s[1..]
    {
      var i :| 0 <= i < |s| && s[i] == x;
      assert s[1..][i - 1] == x;
    }
  }

  lemma ElementsOfPush<T>(s: seq<T>, x: T)
    ensures Elements(s + [x]) == Elements(s) + {x}
    ensures NoDup(s) && x !in s ==> NoDup(s + [x])
  {
    assert forall y :: y in s ==> y in s + [x];
  }

  lemma ElementsSize<T>(s: seq<T>)
    requires NoDup(s)
    ensures |Elements(s)| == |s|
  {
    if s == [] {
      assert Elements(s) == {};
    } else {
      ElementsOfTail(s);
      ElementsSize(s[1..]);
      assert s[0] in Elements(s);
    }
  }

  lemma InWindow<T>(history: seq<T>, n: nat, k: nat)
    requires |history| - n <= k < |history|
    ensures history[k] in Last(history, n)
  {
    var w := Last(history, n);
    assert w[k - (|history| - |w|)] == history[k];
  }

  lemma WindowIsPart<T>(s: seq<T>, n: nat)
    ensures Elements(Last(s, n)) <= Elements(s)
    ensures NoDup(s) ==> NoDup(Last(s, n))
  {
    var d := |s| - |Last(s, n)|;
    assert forall i :: 0 <= i < |Last(s, n)| ==> Last(s, n)[i] == s[d + i];
  }

  /** Pushing a newcomer and dropping the excess keeps the newcomer and invents nothing. */
  lemma WindowAfterPush<T>(s: seq<T>, x: T, n: nat)
    requires NoDup(s) && x !in s && n > 0
    ensures NoDup(Last(s + [x], n)) && x in Last(s + [x], n)
    ensures Elements(Last(s + [x], n)) <= Elements(s) + {x}
  {
    ElementsOfPush(s, x);
    WindowIsPart(s + [x], n);
    InWindow(s + [x], n, |s|);
    assert (s + [x])[|s|] == x;
  }
}
