/** Which callers share a limiter: what the identifiers of requests tell apart. */
module Identifiers {
  import opened Wrappers
  import opened TokenBuckets
  import opened RateLimitTable

  /** A request's identifier spelled out. */
  lemma Spelled(c: Config, w: Who)
    ensures Identifier(c, w) ==
            if c.perUser && w.user != "" && c.perIP && w.ip != "" then "user:" + w.user + ":" + "ip:" + w.ip
            else if c.perUser && w.user != "" then "user:" + w.user
            else if c.perIP && w.ip != "" then "ip:" + w.ip
            else ""
  {
    var parts := Parts(c, w);
    if |parts| == 2 {
      assert parts[..1] == [parts[0]] && Joined(parts[..1]) == parts[0];
    }
  }

  lemma SamePrefix(prefix: string, s: string, t: string)
    requires prefix + s == prefix + t
    ensures s == t
  {
    assert (prefix + s)[|prefix|..] == s && (prefix + t)[|prefix|..] == t;
  }

  /** Limited by address only, callers share a limiter exactly if they have the same address. */
  lemma PerIPTellsAddressesApart(c: Config, v: Who, w: Who)
    requires c.perIP && !c.perUser
    ensures Identifier(c, v) == Identifier(c, w) <==> v.ip == w.ip
  {
    Spelled(c, v);
    Spelled(c, w);
    if Identifier(c, v) == Identifier(c, w) && v.ip != "" && w.ip != "" {
      SamePrefix("ip:", v.ip, w.ip);
    }
  }

  /** Limited by user only, exactly if they are the same user. */
  lemma PerUserTellsUsersApart(c: Config, v: Who, w: Who)
    requires c.perUser && !c.perIP
    ensures Identifier(c, v) == Identifier(c, w) <==> v.user == w.user
  {
    Spelled(c, v);
    Spelled(c, w);
    if Identifier(c, v) == Identifier(c, w) && v.user != "" && w.user != "" {
      SamePrefix("user:", v.user, w.user);
    }
  }

  // ---------------------------------------------------------------------------------------
  // By user and address
  // ---------------------------------------------------------------------------------------

  /** Two users and addresses that give one text: the second user's name is the first one's with
      something of the form ":ip:" after it, which the first one's address starts with. */
  ghost predicate Absorbs(v: Who, w: Who) {
    || (w.user == v.user + ":ip" && v.ip == "ip:" + w.ip)
    || (|w.user| >= |v.user| + 4
        && var between := w.user[|v.user|..][4..];
           w.user == v.user + ":ip:" + between && v.ip == between + ":ip:" + w.ip)
  }

  function Both(w: Who): string {
    w.user + ":ip:" + w.ip
  }

  lemma BothAt(w: Who, i: nat)
    requires i < |Both(w)|
    ensures i < |w.user| ==> Both(w)[i] == w.user[i]
    ensures |w.user| <= i < |w.user| + 4 ==> Both(w)[i] == ":ip:"[i - |w.user|]
    ensures |w.user| + 4 <= i ==> Both(w)[i] == w.ip[i - |w.user| - 4]
  {}

  lemma SameLengthSameCaller(v: Who, w: Who)
    requires Both(v) == Both(w) && |v.user| == |w.user|
    ensures v == w
  {
    var n := |v.user|;
    assert Both(v)[..n] == v.user && Both(w)[..n] == w.user;
    assert Both(v)[n + 4..] == v.ip && Both(w)[n + 4..] == w.ip;
  }

  lemma LongerUserAbsorbed(v: Who, w: Who)
    requires Both(v) == Both(w) && |v.user| < |w.user|
    ensures Absorbs(v, w)
  {
    var n, m, s := |v.user|, |w.user|, Both(v);
    BothAt(v, n);
    BothAt(v, n + 1);
    BothAt(v, n + 2);
    BothAt(v, n + 3);
    BothAt(w, m);
    BothAt(w, m + 1);
    assert s[n] == ':' && s[n + 1] == 'i' && s[n + 2] == 'p' && s[n + 3] == ':' && s[m] == ':' && s[m + 1] == 'i';
    assert m != n + 1 && m != n + 2;
    assert s[..n] == v.user && s[..m] == w.user && s[n + 4..] == v.ip && s[m + 4..] == w.ip;
    assert w.user[..n] == v.user;
    if m == n + 3 {
      assert w.user == v.user + ":ip";
      BothAt(w, m + 2);
      BothAt(w, m + 3);
      assert v.ip == s[n + 4..n + 7] + s[n + 7..];
      assert s[n + 4..n + 7] == "ip:";
    } else {
      LongerUserSplit(v, w);
    }
  }

  lemma LongerUserSplit(v: Who, w: Who)
    requires Both(v) == Both(w) && |w.user| >= |v.user| + 4
    ensures Absorbs(v, w)
  {
    var n, m, s := |v.user|, |w.user|, Both(v);
    var between := w.user[n..][4..];
    assert s[..n] == v.user && s[..m] == w.user && s[n + 4..] == v.ip && s[m + 4..] == w.ip;
    assert s[n..n + 4] == ":ip:" by {
      BothAt(v, n);
      BothAt(v, n + 1);
      BothAt(v, n + 2);
      BothAt(v, n + 3);
    }
    assert s[m..m + 4] == ":ip:" by {
      BothAt(w, m);
      BothAt(w, m + 1);
      BothAt(w, m + 2);
      BothAt(w, m + 3);
    }
    assert w.user == s[..n] + s[n..n + 4] + s[n + 4..m] && between == s[n + 4..m];
    assert v.ip == s[n + 4..m] + s[m..m + 4] + s[m + 4..];
  }

  lemma AbsorbedIsSame(v: Who, w: Who)
    requires Absorbs(v, w)
    ensures Both(v) == Both(w)
  {
    if w.user == v.user + ":ip" && v.ip == "ip:" + w.ip {
      assert Both(v) == v.user + ":ip:" + ("ip:" + w.ip);
      assert Both(w) == v.user + ":ip" + ":ip:" + w.ip;
    } else {
      var between := w.user[|v.user|..][4..];
      assert Both(v) == v.user + ":ip:" + between + ":ip:" + w.ip;
    }
  }

  /** Limited by both, callers with a user and an address share a limiter exactly if they are the
      same, or one user's name takes up what is the beginning of the other's address. */
  lemma SameIdentifierIff(c: Config, v: Who, w: Who)
    requires c.perUser && c.perIP && v.user != "" && v.ip != "" && w.user != "" && w.ip != ""
    ensures Identifier(c, v) == Identifier(c, w) <==> v == w || Absorbs(v, w) || Absorbs(w, v)
  {
    Spelled(c, v);
    Spelled(c, w);
    assert Identifier(c, v) == "user:" + Both(v) && Identifier(c, w) == "user:" + Both(w);
    if Identifier(c, v) == Identifier(c, w) {
      SamePrefix("user:", Both(v), Both(w));
      if |v.user| == |w.user| {
        SameLengthSameCaller(v, w);
      } else if |v.user| < |w.user| {
        LongerUserAbsorbed(v, w);
      } else {
        LongerUserAbsorbed(w, v);
      }
    }
    if Absorbs(v, w) {
      AbsorbedIsSame(v, w);
    }
    if Absorbs(w, v) {
      AbsorbedIsSame(w, v);
    }
  }

  /** So, if no user's name has a colon in it, exactly if they are the same. */
  lemma NoColonsNoSharing(c: Config, v: Who, w: Who)
    requires c.perUser && c.perIP && v.user != "" && v.ip != "" && w.user != "" && w.ip != ""
    requires ':' !in v.user && ':' !in w.user
    ensures Identifier(c, v) == Identifier(c, w) <==> v == w
  {
    SameIdentifierIff(c, v, w);
    if Absorbs(v, w) {
      AbsorbingHasColon(v, w);
    }
    if Absorbs(w, v) {
      AbsorbingHasColon(w, v);
    }
  }

  lemma AbsorbingHasColon(v: Who, w: Who)
    requires Absorbs(v, w)
    ensures ':' in w.user
  {
    assert w.user[|v.user|] == ':';
  }

  /** With a colon two different callers can share one: the identifier does not show where a user's
      name ends. */
  lemma ColonsCanCollide(c: Config)
    requires c.perUser && c.perIP
    ensures Identifier(c, Who("a", "ip:::1")) == Identifier(c, Who("a:ip", "::1"))
  {
    Spelled(c, Who("a", "ip:::1"));
    Spelled(c, Who("a:ip", "::1"));
  }

  /** A caller known only by user and one known only by address never share a limiter. */
  lemma KindsDiffer(c: Config, v: Who, w: Who)
    requires c.perUser && v.user != "" && c.perIP && w.user == "" && w.ip != ""
    ensures Identifier(c, v) != Identifier(c, w)
  {
    Spelled(c, v);
    Spelled(c, w);
    assert Identifier(c, v)[0] == 'u' && Identifier(c, w)[0] == 'i';
  }

  // ---------------------------------------------------------------------------------------
  // What sharing means
  // ---------------------------------------------------------------------------------------

  /** One caller's admitted request leaves another caller's bucket alone if and only if their
      identifiers differ. */
  lemma BucketUntouchedIff(t: Table, now: real, v: Who, w: Who)
    requires AskIdentifier(t, now, Identifier(t.config, v)).1
    ensures var t' := AskIdentifier(t, now, Identifier(t.config, v)).0;
            var id := Identifier(t.config, w);
            && (Refill(Lookup(t', id, now), now) == Refill(Lookup(t, id, now), now)
                <==> Identifier(t.config, v) != id)
            && (Identifier(t.config, v) != id ==>
                  (id in t'.entries <==> id in t.entries)
                  && (id in t.entries ==> t'.entries[id] == t.entries[id]))
  {
    var id := Identifier(t.config, w);
    if Identifier(t.config, v) == id {
      RefillOfSpent(Lookup(t, id, now), now);
    }
  }

  lemma RefillOfSpent(b: Bucket, now: real)
    ensures Refill(Spend(Refill(b, now), 1), now).tokens == Refill(b, now).tokens - 1.0
  {
    var spent := Spend(Refill(b, now), 1);
    assert spent.lastUpdate == now && (now - spent.lastUpdate) * spent.rate == 0.0;
    assert Refill(spent, now).tokens == Min(b.burst as real, spent.tokens);
  }
}
