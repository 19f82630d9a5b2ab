/**
 * The `set.update` loops that collect every expiration and every strike
 * over the provider's option-parameter records.
 */
module ChainSets {
  import opened Market

  function AllExpirations(params: seq<OptionChain>): set<string> {
    set i, e | 0 <= i < |params| && e in params[i].expirations :: e
  }

  function AllStrikes(params: seq<OptionChain>): set<Cents> {
    set i, s | 0 <= i < |params| && s in params[i].strikes :: s
  }

  lemma AllExpirationsStep(params: seq<OptionChain>, k: int)
    requires 0 <= k < |params|
    ensures AllExpirations(params[..k + 1]) == AllExpirations(params[..k]) + set e | e in params[k].expirations
    ensures AllStrikes(params[..k + 1]) == AllStrikes(params[..k]) + set s | s in params[k].strikes
  {
    var a, b := params[..k + 1], params[..k];
    forall e ensures e in AllExpirations(a) <==> e in AllExpirations(b) || e in params[k].expirations {
      if e in AllExpirations(a) {
        var i :| 0 <= i < |a| && e in a[i].expirations;
        if i < k { assert b[i] == a[i]; }
      }
      if e in AllExpirations(b) {
        var i :| 0 <= i < |b| && e in b[i].expirations;
        assert a[i] == b[i];
      }
      if e in params[k].expirations {
        assert a[k] == params[k];
      }
    }
    forall s ensures s in AllStrikes(a) <==> s in AllStrikes(b) || s in params[k].strikes {
      if s in AllStrikes(a) {
        var i :| 0 <= i < |a| && s in a[i].strikes;
        if i < k { assert b[i] == a[i]; }
      }
      if s in AllStrikes(b) {
        var i :| 0 <= i < |b| && s in b[i].strikes;
        assert a[i] == b[i];
      }
      if s in params[k].strikes {
        assert a[k] == params[k];
      }
    }
  }

  /**
   * `for param in opt_params: expirations.update(...); strikes.update(...)`,
   * starting from the given sets.
   */
  method UnionParams(params: seq<OptionChain>, expirations0: set<string>, strikes0: set<Cents>)
    returns (expirations: set<string>, strikes: set<Cents>)
    ensures expirations == expirations0 + AllExpirations(params)
    ensures strikes == strikes0 + AllStrikes(params)
  {
    expirations, strikes := expirations0, strikes0;
    for k := 0 to |params|
      invariant expirations == expirations0 + AllExpirations(params[..k])
      invariant strikes == strikes0 + AllStrikes(params[..k])
    {
      AllExpirationsStep(params, k);
      expirations := expirations + set e | e in params[k].expirations;
      strikes := strikes + set s | s in params[k].strikes;
    }
    assert params[..|params|] == params;
  }

  /** Some element of a non-empty set, as the iteration of a Python set visits it. */
  method Pick<T>(t: set<T>) returns (x: T)
    requires t != {}
    ensures x in t
  {
    x :| x in t;
  }
}
