/** Counting the threads that are at a certain point of their call. */
module Holding {
  /** Threads whose call satisfies `p`. */
  function Holders<C>(calls: map<nat, C>, p: C -> bool): set<nat> {
    set t | t in calls && p(calls[t])
  }

  /** Changing one call changes the number of holders by that call alone. */
  lemma HoldersUpdate<C>(calls: map<nat, C>, t: nat, c: C, p: C -> bool)
    ensures |Holders(calls[t := c], p)| ==
            |Holders(calls, p)| - (if t in calls && p(calls[t]) then 1 else 0) + (if p(c) then 1 else 0)
  {
    var rest := Holders(calls, p) - {t};
    assert Holders(calls, p) == if t in calls && p(calls[t]) then rest + {t} else rest;
    assert Holders(calls[t := c], p) == if p(c) then rest + {t} else rest;
  }

  lemma HoldersRemove<C>(calls: map<nat, C>, t: nat, p: C -> bool)
    requires t in calls
    ensures |Holders(calls - {t}, p)| == |Holders(calls, p)| - if p(calls[t]) then 1 else 0
  {
    assert Holders(calls - {t}, p) == Holders(calls, p) - {t};
  }
}
