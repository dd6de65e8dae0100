// The one-to-many event feed. A send works in place on the array behind `sendCases`; its active cases are a
// prefix of that array. Between the steps of a send other goroutines subscribe and unsubscribe: a subscriber
// still in the inbox is removed there, any other waits in `leaving` until the send or the send lock takes it.
module Feed {
  // The channel of case 0, private to the feed.
  const REMOVE_SUB: int := 0

  /** How often a channel occurs among the cases from lo up to hi. */
  ghost function Occ(s: seq<int>, lo: nat, hi: nat, x: int): nat
    requires lo <= hi <= |s|
  {
    if lo == hi then 0 else Occ(s, lo, hi - 1, x) + One(s[hi - 1], x)
  }

  ghost function One(c: int, x: int): nat {
    if c == x then 1 else 0
  }

  lemma {:induction false} OccSplit(s: seq<int>, lo: nat, mid: nat, hi: nat, x: int)
    requires lo <= mid <= hi <= |s|
    ensures Occ(s, lo, hi, x) == Occ(s, lo, mid, x) + Occ(s, mid, hi, x)
  {
    if mid < hi {
      OccSplit(s, lo, mid, hi - 1, x);
    }
  }

  lemma {:induction false} OccSame(s: seq<int>, t: seq<int>, lo: nat, hi: nat, x: int)
    requires lo <= hi <= |s| && hi <= |t| && forall i :: lo <= i < hi ==> t[i] == s[i]
    ensures Occ(t, lo, hi, x) == Occ(s, lo, hi, x)
  {
    if lo < hi {
      OccSame(s, t, lo, hi - 1, x);
    }
  }

  /** Moving a run of cases down by d keeps its channels. */
  lemma {:induction false} OccMoved(s: seq<int>, t: seq<int>, lo: nat, hi: nat, d: nat, x: int)
    requires d <= lo <= hi <= |s| && hi - d <= |t| && forall i :: lo <= i < hi ==> t[i - d] == s[i]
    ensures Occ(t, lo - d, hi - d, x) == Occ(s, lo, hi, x)
  {
    if lo < hi {
      OccMoved(s, t, lo, hi - 1, d, x);
      assert t[hi - d - 1] == s[hi - 1];
    }
  }

  lemma OccAround(s: seq<int>, lo: nat, k: nat, hi: nat, x: int)
    requires lo <= k < hi <= |s|
    ensures Occ(s, lo, hi, x) == Occ(s, lo, k, x) + One(s[k], x) + Occ(s, k + 1, hi, x)
  {
    OccSplit(s, lo, k + 1, hi, x);
  }

  lemma {:induction false} OccHolds(s: seq<int>, lo: nat, hi: nat, x: int)
    requires lo <= hi <= |s|
    ensures Occ(s, lo, hi, x) > 0 <==> exists k :: lo <= k < hi && s[k] == x
  {
    if lo < hi {
      OccHolds(s, lo, hi - 1, x);
    }
  }

  ghost predicate Swapped(s: seq<int>, t: seq<int>, i: nat, j: nat)
    requires i < |s| && j < |s|
  {
    && |t| == |s| && t[i] == s[j] && t[j] == s[i]
    && forall k :: 0 <= k < |s| && k != i && k != j ==> t[k] == s[k]
  }

  /** Swapping an active case with the last active one moves it from the active to the inactive part. */
  lemma Deactivated(s: seq<int>, t: seq<int>, n: nat, i: nat, x: int)
    requires 1 <= i < n <= |s| && Swapped(s, t, i, n - 1)
    ensures Occ(s, 1, n, x) == Occ(t, 1, n - 1, x) + One(s[i], x)
    ensures Occ(t, n - 1, |t|, x) == Occ(s, n, |s|, x) + One(s[i], x)
  {
    var last := n - 1;
    OccAround(t, last, last, |t|, x);
    OccSame(s, t, n, |s|, x);
    if i < last {
      SwappedActive(s, t, i, last, x);
    } else {
      OccSame(s, t, 1, i, x);
    }
  }

  lemma {:induction false} SwappedActive(s: seq<int>, t: seq<int>, i: nat, last: nat, x: int)
    requires 1 <= i < last < |s| && Swapped(s, t, i, last)
    ensures Occ(s, 1, last, x) + One(s[last], x) == Occ(t, 1, last, x) + One(s[i], x)
  {
    OccSame(s, t, 1, i, x);
    OccSame(s, t, i + 1, last, x);
    OccAround(s, 1, i, last, x);
    OccAround(t, 1, i, last, x);
  }

  /** t is s without its case k. */
  ghost predicate Without(s: seq<int>, t: seq<int>, k: nat)
    requires k < |s|
  {
    t == s[..k] + s[k + 1..]
  }

  lemma WithoutAt(s: seq<int>, t: seq<int>, k: nat, lo: nat, hi: nat, x: int)
    requires k < |s| && Without(s, t, k) && lo <= hi <= |s|
    ensures |t| == |s| - 1
    ensures lo <= k < hi ==> Occ(s, lo, hi, x) == Occ(t, lo, hi - 1, x) + One(s[k], x)
    ensures hi <= k ==> Occ(t, lo, hi, x) == Occ(s, lo, hi, x)
    ensures k < lo ==> Occ(t, lo - 1, hi - 1, x) == Occ(s, lo, hi, x)
  {
    if hi <= k {
      OccSame(s, t, lo, hi, x);
    } else if k < lo {
      OccMoved(s, t, lo, hi, 1, x);
    } else {
      OccAround(s, lo, k, hi, x);
      OccSame(s, t, lo, k, x);
      OccMoved(s, t, k + 1, hi, 1, x);
      OccSplit(t, lo, k, hi - 1, x);
    }
  }

  /** The first index of a channel in a list of cases, or -1. */
  method Find(s: seq<int>, channel: int) returns (r: int)
    ensures -1 <= r < |s|
    ensures r >= 0 ==> s[r] == channel && channel !in s[..r]
    ensures r == -1 <==> channel !in s
  {
    for i := 0 to |s|
      invariant channel !in s[..i]
    {
      if s[i] == channel {
        return i;
      }
    }
    return -1;
  }

  method Deactivate(cases: array<int>, n: nat, i: nat)
    requires 1 <= i < n <= cases.Length
    modifies cases
    ensures cases[..] == old(cases[..][i := cases[n - 1]][n - 1 := cases[i]])
  {
    cases[i], cases[n - 1] := cases[n - 1], cases[i];
  }

  /** Shifts the cases behind k one place down. */
  method Delete(cases: array<int>, len: nat, k: nat)
    requires k < len <= cases.Length
    modifies cases
    ensures cases[..len - 1] == old(cases[..k] + cases[k + 1..len])
  {
    ghost var s := cases[..];
    var j := k;
    while j + 1 < len
      invariant k <= j < len
      invariant forall m :: 0 <= m < k ==> cases[m] == s[m]
      invariant forall m :: k <= m < j ==> cases[m] == s[m + 1]
      invariant forall m :: j < m < len ==> cases[m] == s[m]
    {
      cases[j] := cases[j + 1];
      j := j + 1;
    }
  }

  /**
   * Where a send stands for one channel: each subscription present at the start was sent to, left unsent, or is
   * still active, and one that is kept has been sent to once it is inactive.
   */
  ghost predicate SendingAt(start: seq<int>, s: seq<int>, n: nat, sent: multiset<int>, unsent: multiset<int>,
                            gone: multiset<int>, x: int)
    requires 1 <= n <= |s| && 1 <= |start|
  {
    && Occ(start, 1, |start|, x) == sent[x] + unsent[x] + Occ(s, 1, n, x)
    && Occ(start, 1, |start|, x) == gone[x] + Occ(s, 1, n, x) + Occ(s, n, |s|, x)
    && Occ(s, n, |s|, x) <= sent[x]
  }

  ghost predicate Sending(start: seq<int>, s: seq<int>, n: nat, sent: multiset<int>, unsent: multiset<int>,
                          gone: multiset<int>) {
    1 <= n <= |s| && 1 <= |start| && forall x :: SendingAt(start, s, n, sent, unsent, gone, x)
  }

  lemma AfterDelivery(start: seq<int>, s: seq<int>, t: seq<int>, n: nat, i: nat, sent: multiset<int>,
                      unsent: multiset<int>, gone: multiset<int>)
    requires 1 <= i < n <= |s| && Swapped(s, t, i, n - 1) && Sending(start, s, n, sent, unsent, gone)
    ensures Sending(start, t, n - 1, sent + multiset{s[i]}, unsent, gone)
  {
    var m, sent' := n - 1, sent + multiset{s[i]};
    forall x ensures SendingAt(start, t, m, sent', unsent, gone, x) {
      assert SendingAt(start, s, n, sent, unsent, gone, x);
      Deactivated(s, t, n, i, x);
    }
  }

  lemma AfterRemoval(start: seq<int>, s: seq<int>, t: seq<int>, n: nat, k: nat, sent: multiset<int>,
                     unsent: multiset<int>, gone: multiset<int>)
    requires 1 <= k < |s| && Without(s, t, k) && Sending(start, s, n, sent, unsent, gone)
    ensures k < n ==> Sending(start, t, n - 1, sent, unsent + multiset{s[k]}, gone + multiset{s[k]})
    ensures n <= k ==> Sending(start, t, n, sent, unsent, gone + multiset{s[k]})
  {
    var m, gone' := if k < n then n - 1 else n, gone + multiset{s[k]};
    var unsent' := if k < n then unsent + multiset{s[k]} else unsent;
    forall x ensures SendingAt(start, t, m, sent, unsent', gone', x) {
      assert SendingAt(start, s, n, sent, unsent, gone, x);
      WithoutAt(s, t, k, 1, n, x);
      WithoutAt(s, t, k, n, |s|, x);
    }
  }

  lemma AllActive(s: seq<int>)
    requires 1 <= |s|
    ensures Sending(s, s, |s|, multiset{}, multiset{}, multiset{})
  {
  }

  /**
   * One channel's books: the cases and the inbox hold exactly the live subscriptions and those waiting to be removed.
   */
  ghost predicate AccountsAt(s: seq<int>, inbox: seq<int>, live: multiset<int>, leaving: multiset<int>, x: int)
    requires 1 <= |s|
  {
    Occ(s, 1, |s|, x) + Occ(inbox, 0, |inbox|, x) == live[x] + leaving[x] && leaving[x] <= Occ(s, 1, |s|, x)
  }

  ghost predicate Accounts(s: seq<int>, inbox: seq<int>, live: multiset<int>, leaving: multiset<int>) {
    1 <= |s| && s[0] == REMOVE_SUB && live[REMOVE_SUB] == 0 && leaving[REMOVE_SUB] == 0
    && forall x :: AccountsAt(s, inbox, live, leaving, x)
  }

  lemma Joins(s: seq<int>, inbox: seq<int>, live: multiset<int>, leaving: multiset<int>, c: int)
    requires Accounts(s, inbox, live, leaving) && c != REMOVE_SUB
    ensures Accounts(s, inbox + [c], live + multiset{c}, leaving)
  {
    var inbox', live' := inbox + [c], live + multiset{c};
    forall x ensures AccountsAt(s, inbox', live', leaving, x) {
      assert AccountsAt(s, inbox, live, leaving, x);
      OccSame(inbox, inbox', 0, |inbox|, x);
    }
  }

  lemma LeavesInbox(s: seq<int>, inbox: seq<int>, inbox': seq<int>, live: multiset<int>, leaving: multiset<int>, k: nat)
    requires Accounts(s, inbox, live, leaving) && k < |inbox| && Without(inbox, inbox', k) && inbox[k] in live
    ensures Accounts(s, inbox', live - multiset{inbox[k]}, leaving)
  {
    var live' := live - multiset{inbox[k]};
    forall x ensures AccountsAt(s, inbox', live', leaving, x) {
      assert AccountsAt(s, inbox, live, leaving, x);
      WithoutAt(inbox, inbox', k, 0, |inbox|, x);
    }
  }

  lemma StartsWaiting(s: seq<int>, inbox: seq<int>, live: multiset<int>, leaving: multiset<int>, c: int)
    requires Accounts(s, inbox, live, leaving) && c in live && c !in inbox
    ensures Accounts(s, inbox, live - multiset{c}, leaving + multiset{c})
  {
    var live', leaving' := live - multiset{c}, leaving + multiset{c};
    OccHolds(inbox, 0, |inbox|, c);
    forall x ensures AccountsAt(s, inbox, live', leaving', x) {
      assert AccountsAt(s, inbox, live, leaving, x);
    }
  }

  lemma IsTaken(s: seq<int>, t: seq<int>, inbox: seq<int>, live: multiset<int>, leaving: multiset<int>, k: nat)
    requires Accounts(s, inbox, live, leaving) && 1 <= k < |s| && Without(s, t, k) && s[k] in leaving
    ensures Accounts(t, inbox, live, leaving - multiset{s[k]})
  {
    var leaving' := leaving - multiset{s[k]};
    forall x ensures AccountsAt(t, inbox, live, leaving', x) {
      assert AccountsAt(s, inbox, live, leaving, x);
      WithoutAt(s, t, k, 1, |s|, x);
    }
  }

  lemma {:induction false} OccMerged(s: seq<int>, inbox: seq<int>, t: seq<int>, x: int)
    requires 1 <= |s| && |t| == |s| + |inbox|
    requires (forall i :: 0 <= i < |s| ==> s[i] == t[i]) && forall i :: |s| <= i < |t| ==> inbox[i - |s|] == t[i]
    ensures Occ(t, 1, |t|, x) == Occ(s, 1, |s|, x) + Occ(inbox, 0, |inbox|, x)
  {
    var n := |s|;
    OccSplit(t, 1, n, |t|, x);
    OccSame(t, s, 1, n, x);
    OccMoved(t, inbox, n, |t|, n, x);
  }

  lemma IsMerged(s: seq<int>, inbox: seq<int>, t: seq<int>, live: multiset<int>, leaving: multiset<int>)
    requires Accounts(s, inbox, live, leaving) && t == s + inbox
    ensures Accounts(t, [], live, leaving)
  {
    forall x ensures AccountsAt(t, [], live, leaving, x) {
      assert AccountsAt(s, inbox, live, leaving, x);
      OccMerged(s, inbox, t, x);
    }
  }

  lemma IsSwapped(s: seq<int>, t: seq<int>, n: nat, i: nat, inbox: seq<int>, live: multiset<int>,
                  leaving: multiset<int>)
    requires 1 <= i < n <= |s| && Swapped(s, t, i, n - 1) && Accounts(s, inbox, live, leaving)
    ensures Accounts(t, inbox, live, leaving)
  {
    forall x ensures AccountsAt(t, inbox, live, leaving, x) {
      assert AccountsAt(s, inbox, live, leaving, x);
      Deactivated(s, t, n, i, x);
      OccSplit(s, 1, n, |s|, x);
      OccSplit(t, 1, n - 1, |t|, x);
    }
  }

  lemma IsListed(s: seq<int>, inbox: seq<int>, live: multiset<int>, leaving: multiset<int>, c: int)
    requires Accounts(s, inbox, live, leaving) && c in leaving
    ensures c in s && c != REMOVE_SUB
  {
    assert AccountsAt(s, inbox, live, leaving, c);
    OccHolds(s, 1, |s|, c);
  }

  /** The first occurrence of a channel has been taken out of the inbox. */
  ghost predicate FirstTaken(inbox: seq<int>, inbox': seq<int>, channel: int, i: int) {
    && 0 <= i < |inbox| && inbox[i] == channel && channel !in inbox[..i]
    && inbox' == inbox[..i] + inbox[i + 1..]
  }

  class Feed {
    // The cases are buf[..len]; case 0 receives from removeSub.
    var buf: array<int>
    var len: nat
    var inbox: seq<int>
    // Subscriptions not yet unsubscribed, and those whose removal waits for the send lock or a send.
    var live: multiset<int>
    var leaving: multiset<int>

    ghost function Cases(): seq<int>
      requires len <= buf.Length
      reads this, buf
    {
      buf[..len]
    }

    ghost predicate Valid()
      reads this, buf
    {
      len <= buf.Length && Accounts(Cases(), inbox, live, leaving)
    }

    constructor ()
      ensures Valid() && fresh(buf) && live == leaving == multiset{} && inbox == []
    {
      buf := new int[1];
      len, inbox, live, leaving := 1, [], multiset{}, multiset{};
      new;
      buf[0] := REMOVE_SUB;
    }

    method Subscribe(channel: int)
      requires Valid() && channel != REMOVE_SUB
      modifies this`inbox, this`live
      ensures Valid() && live == old(live) + multiset{channel} && inbox == old(inbox) + [channel]
    {
      Joins(Cases(), inbox, live, leaving, channel);
      inbox := inbox + [channel];
      live := live + multiset{channel};
    }

    /** The first half of a removal: done if the channel is in the inbox, otherwise it waits. */
    method Unsubscribe(channel: int)
      requires Valid() && channel in live
      modifies this`inbox, this`live, this`leaving
      ensures Valid() && live == old(live) - multiset{channel}
      ensures leaving == if channel in old(inbox) then old(leaving) else old(leaving) + multiset{channel}
      ensures channel !in old(inbox) ==> inbox == old(inbox)
      ensures channel in old(inbox) ==> exists i :: FirstTaken(old(inbox), inbox, channel, i)
    {
      var index := Find(inbox, channel);
      if index != -1 {
        LeavesInbox(Cases(), inbox, inbox[..index] + inbox[index + 1..], live, leaving, index);
        inbox := inbox[..index] + inbox[index + 1..];
        assert FirstTaken(old(inbox), inbox, channel, index);
      } else {
        StartsWaiting(Cases(), inbox, live, leaving, channel);
        leaving := leaving + multiset{channel};
      }
      live := live - multiset{channel};
    }

    /** Takes a waiting channel out of the cases, by a send or under the send lock; it is always found behind case 0. */
    method TakeOut(channel: int) returns (index: nat)
      requires Valid() && channel in leaving
      modifies buf, this`len, this`leaving
      ensures Valid() && leaving == old(leaving) - multiset{channel} && len == old(len) - 1
      ensures 1 <= index < old(len) && old(Cases())[index] == channel && Without(old(Cases()), Cases(), index)
    {
      ghost var s := Cases();
      IsListed(s, inbox, live, leaving, channel);
      index := Find(buf[..len], channel);
      Delete(buf, len, index);
      len := len - 1;
      IsTaken(s, Cases(), inbox, live, leaving, index);
      leaving := leaving - multiset{channel};
    }

    /** What other goroutines do meanwhile: any number of subscriptions and first halves of removals. */
    method Interfere() returns (ghost joined: multiset<int>, ghost left: multiset<int>)
      requires Valid()
      modifies this`inbox, this`live, this`leaving
      ensures Valid() && forall x :: AskedAt(old(live), old(leaving), live, leaving, joined, left, multiset{}, x)
    {
      joined, left := multiset{}, multiset{};
      var steps: nat := *;
      while steps > 0
        invariant Valid()
        invariant forall x :: AskedAt(old(live), old(leaving), live, leaving, joined, left, multiset{}, x)
      {
        var channel: int := *;
        if * {
          if channel != REMOVE_SUB {
            AskedJoin(old(live), old(leaving), live, leaving, joined, left, channel);
            Subscribe(channel);
            joined := joined + multiset{channel};
          }
        } else if channel in live {
          AskedLeave(old(live), old(leaving), live, leaving, joined, left, channel);
          Unsubscribe(channel);
          left := left + multiset{channel};
        }
        steps := steps - 1;
      }
    }

    /** Moves the inbox behind the cases. */
    method Merge()
      requires Valid()
      modifies this`buf, this`len, this`inbox
      ensures Valid() && fresh(buf) && inbox == [] && Cases() == old(Cases()) + old(inbox)
    {
      var cases := new int[len + |inbox|];
      ghost var s := buf[..len] + inbox;
      for i := 0 to len
        modifies cases
        invariant forall k :: 0 <= k < i ==> cases[k] == s[k]
      {
        cases[i] := buf[i];
      }
      for i := 0 to |inbox|
        modifies cases
        invariant forall k :: 0 <= k < len + i ==> cases[k] == s[k]
      {
        cases[len + i] := inbox[i];
      }
      IsMerged(Cases(), inbox, s, live, leaving);
      buf, len, inbox := cases, cases.Length, [];
      assert Cases() == s;
    }

    /** The fast path: offers the value to every active case once, without blocking. */
    method TrySend(n0: nat, ghost start: seq<int>, ghost sent0: multiset<int>, ghost unsent: multiset<int>,
                   ghost gone: multiset<int>)
      returns (n: nat, nsent: nat, ghost sent: multiset<int>)
      requires Valid() && Sending(start, Cases(), n0, sent0, unsent, gone)
      modifies buf
      ensures Valid() && n <= n0 && Sending(start, Cases(), n, sent, unsent, gone) && |sent| == |sent0| + nsent
    {
      n, nsent, sent := n0, 0, sent0;
      var i := 1;
      while i < n
        invariant 1 <= i && n <= n0 && Valid() && Sending(start, Cases(), n, sent, unsent, gone)
        invariant |sent| == |sent0| + nsent
        decreases n - i
      {
        if * {
          sent := Deliver(n, i, start, sent, unsent, gone);
          n, nsent := n - 1, nsent + 1;
        } else {
          i := i + 1;
        }
      }
    }

    /** One delivery: the case moves behind the active ones. */
    method Deliver(n: nat, i: nat, ghost start: seq<int>, ghost sent0: multiset<int>, ghost unsent: multiset<int>,
                   ghost gone: multiset<int>)
      returns (ghost sent: multiset<int>)
      requires Valid() && 1 <= i < n && Sending(start, Cases(), n, sent0, unsent, gone)
      modifies buf
      ensures Valid() && Sending(start, Cases(), n - 1, sent, unsent, gone) && |sent| == |sent0| + 1
    {
      ghost var s := Cases();
      sent := sent0 + multiset{buf[i]};
      Deactivate(buf, n, i);
      assert Swapped(s, Cases(), i, n - 1);
      AfterDelivery(start, s, Cases(), n, i, sent0, unsent, gone);
      IsSwapped(s, Cases(), n, i, inbox, live, leaving);
    }

    /** The send receives from removeSub: the channel leaves, and with it an active case if it was one. */
    method Removal(channel: int, n0: nat, ghost start: seq<int>, ghost sent: multiset<int>,
                   ghost unsent0: multiset<int>, ghost gone0: multiset<int>)
      returns (n: nat, ghost unsent: multiset<int>, ghost gone: multiset<int>)
      requires Valid() && channel in leaving && Sending(start, Cases(), n0, sent, unsent0, gone0)
      modifies buf, this`len, this`leaving
      ensures Valid() && n <= n0 && n + len < n0 + old(len) && Sending(start, Cases(), n, sent, unsent, gone)
      ensures leaving == old(leaving) - multiset{channel} && gone == gone0 + multiset{channel}
    {
      ghost var s := Cases();
      var index := TakeOut(channel);
      AfterRemoval(start, s, Cases(), n0, index, sent, unsent0, gone0);
      n, unsent, gone := n0, unsent0, gone0 + multiset{channel};
      if index < n {
        n, unsent := n - 1, unsent + multiset{channel};
      }
    }

    /**
     * Sends a value. Every subscription present at the start and kept to the end got the value exactly once, one
     * removed meanwhile at most once, and the result counts the deliveries.
     */
    method Send()
      returns (nsent: nat, ghost sent: multiset<int>, ghost gone: multiset<int>, ghost joined: multiset<int>,
               ghost left: multiset<int>)
      requires Valid()
      modifies this, buf
      ensures Valid() && nsent == |sent|
      ensures forall x :: Outcome(old(Cases()) + old(inbox), Cases(), sent, gone, x)
      // nobody is removed who has not asked for it
      ensures forall x :: AskedAt(old(live), old(leaving), live, leaving, joined, left, gone, x)
    {
      ghost var start := Cases() + inbox;
      Merge();
      ghost var unsent := multiset{};
      sent, gone, nsent, joined, left := multiset{}, multiset{}, 0, multiset{}, multiset{};
      var n: nat := len;
      AllActive(start);
      while true
        invariant Valid() && fresh(buf) && Sending(start, Cases(), n, sent, unsent, gone) && nsent == |sent|
        invariant forall x :: AskedAt(old(live), old(leaving), live, leaving, joined, left, gone, x)
        decreases n + len
      {
        var k;
        n, k, sent := TrySend(n, start, sent, unsent, gone);
        nsent := nsent + k;
        if n == 1 {
          break;
        }
        ghost var live1, leaving1 := live, leaving;
        ghost var more, less := Interfere();
        AskedMore(old(live), old(leaving), live1, leaving1, live, leaving, joined, left, more, less, gone);
        joined, left := joined + more, left + less;
        var channel: int := *;
        if channel in leaving {
          AskedGone(old(live), old(leaving), live, leaving, joined, left, gone, channel);
          n, unsent, gone := Removal(channel, n, start, sent, unsent, gone);
        } else {
          var chosen: nat :| 1 <= chosen < n;
          sent := Deliver(n, chosen, start, sent, unsent, gone);
          n, nsent := n - 1, nsent + 1;
        }
      }
      AllDone(Cases(), start, sent, unsent, gone);
    }
  }

  /**
   * For one channel: what became of the subscriptions there were and those that joined. Whoever is waiting or gone
   * was waiting before or has left since.
   */
  ghost predicate AskedAt(live0: multiset<int>, leaving0: multiset<int>, live: multiset<int>, leaving: multiset<int>,
                          joined: multiset<int>, left: multiset<int>, gone: multiset<int>, x: int) {
    live[x] + left[x] == live0[x] + joined[x] && leaving[x] + gone[x] <= leaving0[x] + left[x]
  }

  lemma AskedJoin(live0: multiset<int>, leaving0: multiset<int>, live: multiset<int>, leaving: multiset<int>,
                  joined: multiset<int>, left: multiset<int>, c: int)
    requires forall x :: AskedAt(live0, leaving0, live, leaving, joined, left, multiset{}, x)
    ensures forall x ::
      AskedAt(live0, leaving0, live + multiset{c}, leaving, joined + multiset{c}, left, multiset{}, x)
  {
    forall x
      ensures AskedAt(live0, leaving0, live + multiset{c}, leaving, joined + multiset{c}, left, multiset{}, x)
    {
      assert AskedAt(live0, leaving0, live, leaving, joined, left, multiset{}, x);
    }
  }

  lemma AskedLeave(live0: multiset<int>, leaving0: multiset<int>, live: multiset<int>, leaving: multiset<int>,
                   joined: multiset<int>, left: multiset<int>, c: int)
    requires c in live && forall x :: AskedAt(live0, leaving0, live, leaving, joined, left, multiset{}, x)
    ensures forall x ::
      AskedAt(live0, leaving0, live - multiset{c}, leaving, joined, left + multiset{c}, multiset{}, x)
    ensures forall x ::
      AskedAt(live0, leaving0, live - multiset{c}, leaving + multiset{c}, joined, left + multiset{c}, multiset{}, x)
  {
    var fewer, more := live - multiset{c}, left + multiset{c};
    forall x
      ensures AskedAt(live0, leaving0, fewer, leaving, joined, more, multiset{}, x)
      ensures AskedAt(live0, leaving0, fewer, leaving + multiset{c}, joined, more, multiset{}, x)
    {
      assert AskedAt(live0, leaving0, live, leaving, joined, left, multiset{}, x);
    }
  }

  lemma AskedGone(live0: multiset<int>, leaving0: multiset<int>, live: multiset<int>, leaving: multiset<int>,
                  joined: multiset<int>, left: multiset<int>, gone: multiset<int>, c: int)
    requires c in leaving && forall x :: AskedAt(live0, leaving0, live, leaving, joined, left, gone, x)
    ensures forall x :: AskedAt(live0, leaving0, live, leaving - multiset{c}, joined, left, gone + multiset{c}, x)
  {
    forall x ensures AskedAt(live0, leaving0, live, leaving - multiset{c}, joined, left, gone + multiset{c}, x) {
      assert AskedAt(live0, leaving0, live, leaving, joined, left, gone, x);
    }
  }

  lemma AskedMore(live0: multiset<int>, leaving0: multiset<int>, live1: multiset<int>, leaving1: multiset<int>,
                  live2: multiset<int>, leaving2: multiset<int>, joined: multiset<int>, left: multiset<int>,
                  more: multiset<int>, less: multiset<int>, gone: multiset<int>)
    requires forall x :: AskedAt(live0, leaving0, live1, leaving1, joined, left, gone, x)
    requires forall x :: AskedAt(live1, leaving1, live2, leaving2, more, less, multiset{}, x)
    ensures forall x :: AskedAt(live0, leaving0, live2, leaving2, joined + more, left + less, gone, x)
  {
    forall x ensures AskedAt(live0, leaving0, live2, leaving2, joined + more, left + less, gone, x) {
      assert AskedAt(live0, leaving0, live1, leaving1, joined, left, gone, x);
      assert AskedAt(live1, leaving1, live2, leaving2, more, less, multiset{}, x);
    }
  }

  /**
   * For one channel: kept subscriptions were sent to, nothing was sent twice, and who is neither kept nor gone does not
   * exist.
   */
  ghost predicate Outcome(start: seq<int>, cases: seq<int>, sent: multiset<int>, gone: multiset<int>, x: int) {
    && 1 <= |start| && 1 <= |cases|
    && Occ(cases, 1, |cases|, x) + gone[x] == Occ(start, 1, |start|, x)
    && Occ(cases, 1, |cases|, x) <= sent[x] <= Occ(start, 1, |start|, x)
  }

  lemma AllDone(s: seq<int>, start: seq<int>, sent: multiset<int>, unsent: multiset<int>, gone: multiset<int>)
    requires Sending(start, s, 1, sent, unsent, gone)
    ensures forall x :: Outcome(start, s, sent, gone, x)
  {
    forall x ensures Outcome(start, s, sent, gone, x) {
      assert SendingAt(start, s, 1, sent, unsent, gone, x);
    }
  }
}
