/** Counting in histories: how often something happened between two points of a log. */
module EventLog {
  /** Number of entries that satisfy the predicate. */
  ghost function Count<T(!new)>(log: seq<T>, p: T -> bool): nat {
    if log == [] then 0
    else Count(log[..|log| - 1], p) + if p(log[|log| - 1]) then 1 else 0
  }

  lemma CountAppend<T(!new)>(log: seq<T>, e: T, p: T -> bool)
    ensures Count(log + [e], p) == Count(log, p) + if p(e) then 1 else 0
  {
    assert (log + [e])[..|log|] == log;
  }

  lemma {:induction false} CountSplit<T(!new)>(a: seq<T>, b: seq<T>, p: T -> bool)
    ensures Count(a + b, p) == Count(a, p) + Count(b, p)
  {
    if b == [] {
      assert a + b == a;
    } else {
      var last := |b| - 1;
      assert (a + b)[..|a + b| - 1] == a + b[..last];
      CountSplit(a, b[..last], p);
    }
  }

  /** Nothing was counted exactly when no entry satisfies the predicate. */
  lemma {:induction false} CountZero<T(!new)>(log: seq<T>, p: T -> bool)
    ensures Count(log, p) == 0 <==> forall i | 0 <= i < |log| :: !p(log[i])
  {
    if log != [] {
      CountZero(log[..|log| - 1], p);
    }
  }

  const WORD: nat := 0x1_0000_0000_0000_0000

  /** A number as a 64-bit word. */
  function Word(n: nat): nat {
    n % WORD
  }

  /** One more than a 64-bit word, wrapping around. */
  function NextWord(w: nat): nat {
    Word(w + 1)
  }

  lemma NextWordOfCount(n: nat)
    ensures NextWord(Word(n)) == Word(n + 1)
  {
  }

  lemma SmallWord(n: nat)
    requires n < WORD
    ensures Word(n) == n
  {
  }

  lemma WordsAgree(a: nat, d: nat)
    ensures Word(a + d) == Word(a) <==> Word(d) == 0
  {
  }

  lemma WordOfSum(a: nat, b: nat)
    ensures Word(Word(a) + b) == Word(a + b)
  {
  }

  /** Two counts that agree as 64-bit words, taken at two points of one log: the number of counted
      entries between the points is a multiple of 2^64, hence zero if there were fewer. */
  lemma SameWord<T(!new)>(log: seq<T>, from: nat, p: T -> bool)
    requires from <= |log|
    ensures Word(Count(log, p)) == Word(Count(log[..from], p)) <==> Word(Count(log[from..], p)) == 0
    ensures Word(Count(log[from..], p)) == 0 && Count(log[from..], p) < WORD ==> Count(log[from..], p) == 0
  {
    hide Word, Count;
    assert log == log[..from] + log[from..];
    CountSplit(log[..from], log[from..], p);
    var between := Count(log[from..], p);
    WordsAgree(Count(log[..from], p), between);
    if between < WORD {
      SmallWord(between);
    }
  }
}
