/** How each certificate of a chain is sent: by its hash if the peer has it, else by its first
    place in the first common set that holds it, and in full only if there is none. */
module CertEffects {
  import opened Options
  import opened CertCompression

  /** `name` is a known set that holds `cert`. */
  predicate HoldsCert(env: Env, name: nat, cert: Cert) {
    name in env.sets && cert in env.sets[name]
  }

  lemma {:induction false} PlaceIsFirst(certs: seq<Cert>, cert: Cert, i: nat)
    requires i <= |certs|
    ensures
      var r := FindFrom(certs, cert, i);
      && (r.Some? <==> cert in certs[i..])
      && (r.Some? ==> i <= r.value < |certs| && certs[r.value] == cert && cert !in certs[i..r.value])
    decreases |certs| - i
  {
    if i < |certs| {
      assert certs[i..] == [certs[i]] + certs[i + 1..];
      if certs[i] != cert {
        PlaceIsFirst(certs, cert, i + 1);
        var r := FindFrom(certs, cert, i);
        if r.Some? {
          assert certs[i..r.value] == [certs[i]] + certs[i + 1..r.value];
        }
      }
    }
  }

  /** `name` is the first of the names that denotes a set with `cert`. */
  ghost predicate IsFirstSet(env: Env, cert: Cert, names: seq<nat>, name: nat) {
    exists k | 0 <= k < |names| ::
      names[k] == name && HoldsCert(env, name, cert) && forall j | 0 <= j < k :: !HoldsCert(env, names[j], cert)
  }

  lemma {:induction false} CommonIsFirst(env: Env, cert: Cert, names: seq<nat>)
    ensures
      var r := FindCommon(env, cert, names);
      && (r == Compressed <==> forall k | 0 <= k < |names| :: !HoldsCert(env, names[k], cert))
      && (r.Common? ==>
            && IsFirstSet(env, cert, names, r.set_)
            && r.index < |env.sets[r.set_]| && env.sets[r.set_][r.index] == cert
            && cert !in env.sets[r.set_][..r.index])
  {
    if names != [] {
      var name, rest := names[0], names[1..];
      if name in env.sets {
        PlaceIsFirst(env.sets[name], cert, 0);
        assert env.sets[name][0..] == env.sets[name];
      }
      if HoldsCert(env, name, cert) {
        assert names[0] == name;
        var n := FindFrom(env.sets[name], cert, 0).value;
        assert env.sets[name][0..n] == env.sets[name][..n];
      } else {
        CommonIsFirst(env, cert, rest);
        var r := FindCommon(env, cert, rest);
        assert forall k | 0 < k < |names| :: names[k] == rest[k - 1];
        if r.Common? {
          var k :| 0 <= k < |rest| && rest[k] == r.set_ && HoldsCert(env, r.set_, cert)
                   && forall j | 0 <= j < k :: !HoldsCert(env, rest[j], cert);
          assert names[k + 1] == r.set_;
        }
      }
    }
  }

  /** Certificate `i` of a chain is cached, common or sent in full, in this order of preference. */
  lemma {:induction false} EntryIsExact(env: Env, chain: seq<Cert>, cached: seq<nat>, names: seq<nat>, i: nat)
    requires i < |chain|
    ensures
      var e, cert := Entries(env, chain, cached, names)[i], chain[i];
      var common := exists k | 0 <= k < |names| :: HoldsCert(env, names[k], cert);
      && (env.hash(cert) in cached ==> e == Cached(env.hash(cert)))
      && (env.hash(cert) !in cached && !common ==> e == Compressed)
      && (env.hash(cert) !in cached && common ==>
            && e.Common? && IsFirstSet(env, cert, names, e.set_)
            && e.index < |env.sets[e.set_]| && env.sets[e.set_][e.index] == cert
            && cert !in env.sets[e.set_][..e.index])
  {
    if i == 0 {
      CommonIsFirst(env, chain[0], names);
    } else {
      EntryIsExact(env, chain[1..], cached, names, i - 1);
    }
  }
}
