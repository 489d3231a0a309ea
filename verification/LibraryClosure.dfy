/** Which shared libraries the AppImage carries (xtask/src/linux.rs): the ones its list names
    that the binary needs, and the ones they need in turn. */
module LibraryClosure {

  import opened Wrappers

  /** The two lists a library may be on, and what each shared object needs. */
  datatype Host = Host(bundled: seq<string>, provided: seq<string>, needed: string -> seq<string>)

  predicate Listed(host: Host, lib: string) { lib in host.bundled || lib in host.provided }

  predicate AllListed(host: Host, libs: seq<string>) { forall lib <- libs :: Listed(host, lib) }

  /** The libraries among `libs` to bundle. */
  function ToBundle(host: Host, libs: seq<string>): seq<string>
  {
    if libs == [] then []
    else ToBundle(host, libs[..|libs| - 1]) + (if libs[|libs| - 1] in host.bundled then [libs[|libs| - 1]] else [])
  }

  lemma {:induction false} ToBundleHas(host: Host, libs: seq<string>, lib: string)
    ensures lib in ToBundle(host, libs) <==> lib in libs && lib in host.bundled
  {
    if libs != [] {
      assert libs == libs[..|libs| - 1] + [libs[|libs| - 1]];
      ToBundleHas(host, libs[..|libs| - 1], lib);
    }
  }

  /** They come in the order they are needed in. */
  lemma {:induction false} ToBundleInOrder(host: Host, a: seq<string>, b: seq<string>)
    ensures ToBundle(host, a + b) == ToBundle(host, a) + ToBundle(host, b)
  {
    if b == [] {
      assert a + b == a;
    } else {
      ToBundleInOrder(host, a, b[..|b| - 1]);
      assert (a + b)[..|a + b| - 1] == a + b[..|b| - 1];
    }
  }

  ghost predicate FirstUnlisted(host: Host, libs: seq<string>, lib: string)
  {
    exists i :: 0 <= i < |libs| && libs[i] == lib && !Listed(host, libs[i]) && AllListed(host, libs[..i])
  }

  /** The libraries to bundle, or the first one neither list names. */
  method Classify(host: Host, libs: seq<string>) returns (r: Result<seq<string>, string>)
    ensures r.Success? <==> AllListed(host, libs)
    ensures r.Success? ==> r.value == ToBundle(host, libs)
    ensures r.Failure? ==> FirstUnlisted(host, libs, r.error)
  {
    var bundle := [];
    for i := 0 to |libs|
      invariant bundle == ToBundle(host, libs[..i])
      invariant AllListed(host, libs[..i])
    {
      assert libs[..i + 1][..i] == libs[..i];
      if libs[i] in host.bundled {
        bundle := bundle + [libs[i]];
      } else if libs[i] !in host.provided {
        assert libs[i] in libs && !Listed(host, libs[i]);
        return Failure(libs[i]);
      }
    }
    assert libs[..|libs|] == libs;
    return Success(bundle);
  }

  /** A chain of libraries to bundle, each needed by the one before and the first by the binary. */
  ghost predicate IsChain(host: Host, root: seq<string>, chain: seq<string>)
  {
    && chain != []
    && chain[0] in root
    && (forall i :: 0 <= i < |chain| ==> chain[i] in host.bundled)
    && (forall i :: 0 < i < |chain| ==> chain[i] in host.needed(chain[i - 1]))
  }

  ghost predicate EndsIn(host: Host, root: seq<string>, chain: seq<string>, lib: string)
  {
    IsChain(host, root, chain) && chain[|chain| - 1] == lib
  }

  ghost predicate Reached(host: Host, root: seq<string>, lib: string)
  {
    exists chain :: EndsIn(host, root, chain, lib)
  }

  /** Every object that ends up in the AppImage needs listed libraries only. */
  ghost predicate Sorted(host: Host, root: seq<string>)
  {
    AllListed(host, root) && forall lib :: Reached(host, root, lib) ==> AllListed(host, host.needed(lib))
  }

  ghost predicate NoDuplicates(libs: seq<string>) { forall i, j :: 0 <= i < j < |libs| ==> libs[i] != libs[j] }

  ghost predicate Closed(host: Host, root: seq<string>, libs: iset<string>)
  {
    && (forall lib <- ToBundle(host, root) :: lib in libs)
    && (forall b, lib {:trigger b in libs, lib in ToBundle(host, host.needed(b))} ::
          b in libs && lib in ToBundle(host, host.needed(b)) ==> lib in libs)
  }

  lemma ReachedByRoot(host: Host, root: seq<string>, lib: string)
    requires lib in ToBundle(host, root)
    ensures Reached(host, root, lib)
  {
    ToBundleHas(host, root, lib);
    assert EndsIn(host, root, [lib], lib);
  }

  lemma ReachedByNeed(host: Host, root: seq<string>, b: string, lib: string)
    requires Reached(host, root, b) && lib in ToBundle(host, host.needed(b))
    ensures Reached(host, root, lib)
  {
    ToBundleHas(host, host.needed(b), lib);
    var chain :| EndsIn(host, root, chain, b);
    assert EndsIn(host, root, chain + [lib], lib);
  }

  lemma {:induction false} ChainStaysIn(host: Host, root: seq<string>, libs: iset<string>, chain: seq<string>)
    requires Closed(host, root, libs) && IsChain(host, root, chain)
    ensures chain[|chain| - 1] in libs
  {
    if |chain| == 1 {
      ToBundleHas(host, root, chain[0]);
    } else {
      var init := chain[..|chain| - 1];
      ChainStaysIn(host, root, libs, init);
      ToBundleHas(host, host.needed(init[|init| - 1]), chain[|chain| - 1]);
    }
  }

  ghost function AllReached(host: Host, root: seq<string>): iset<string> { iset lib | Reached(host, root, lib) }

  /** The libraries reached are the least closed set. */
  lemma ReachedIsLeast(host: Host, root: seq<string>, libs: iset<string>)
    requires Closed(host, root, libs)
    ensures AllReached(host, root) <= libs
    ensures Closed(host, root, AllReached(host, root))
  {
    forall lib | Reached(host, root, lib)
      ensures lib in libs
    {
      var chain :| EndsIn(host, root, chain, lib);
      ChainStaysIn(host, root, libs, chain);
    }
    forall lib <- ToBundle(host, root)
      ensures Reached(host, root, lib)
    {
      ReachedByRoot(host, root, lib);
    }
    forall b, lib | Reached(host, root, b) && lib in ToBundle(host, host.needed(b))
      ensures Reached(host, root, lib)
    {
      ReachedByNeed(host, root, b, lib);
    }
  }

  /** What the loop has found: only what is reached, and all of it but what is still pending. */
  ghost predicate Found(host: Host, root: seq<string>, bundled: seq<string>, pending: seq<string>)
  {
    && NoDuplicates(bundled)
    && (forall lib <- pending :: Reached(host, root, lib))
    && (forall lib <- bundled :: Reached(host, root, lib) && AllListed(host, host.needed(lib)))
    && (forall lib <- ToBundle(host, root) :: lib in bundled || lib in pending)
    && (forall b, lib {:trigger b in bundled, lib in ToBundle(host, host.needed(b))} ::
          b in bundled && lib in ToBundle(host, host.needed(b)) ==> lib in bundled || lib in pending)
  }

  function Elements(libs: seq<string>): set<string> { set lib <- libs }

  lemma ReachedIsBundled(host: Host, root: seq<string>, lib: string)
    requires Reached(host, root, lib)
    ensures lib in host.bundled
  {
    var chain :| EndsIn(host, root, chain, lib);
  }

  lemma FoundAll(host: Host, root: seq<string>, bundled: seq<string>)
    requires Found(host, root, bundled, [])
    ensures forall lib :: lib in bundled <==> Reached(host, root, lib)
  {
    var libs := iset lib | lib in bundled;
    assert Closed(host, root, libs);
    ReachedIsLeast(host, root, libs);
    forall lib | Reached(host, root, lib)
      ensures lib in bundled
    {
      assert lib in AllReached(host, root) && lib in libs;
    }
  }

  lemma FoundOneMore(host: Host, root: seq<string>, bundled: seq<string>, pending: seq<string>, lib: string)
    requires Found(host, root, bundled, pending + [lib])
    ensures lib in bundled ==> Found(host, root, bundled, pending)
    ensures lib !in bundled && AllListed(host, host.needed(lib))
            ==> Found(host, root, bundled + [lib], pending + ToBundle(host, host.needed(lib)))
  {
    assert lib in pending + [lib];
    if lib !in bundled {
      forall l <- ToBundle(host, host.needed(lib))
        ensures Reached(host, root, l)
      {
        ReachedByNeed(host, root, lib, l);
      }
    }
  }

  /** Everything reached, each once, whatever needs what; or a library that neither list names. */
  method Bundle(host: Host, root: seq<string>) returns (r: Result<seq<string>, string>)
    ensures r.Success? <==> Sorted(host, root)
    ensures r.Success? ==> NoDuplicates(r.value) && forall lib :: lib in r.value <==> Reached(host, root, lib)
    ensures r.Failure? ==> !Listed(host, r.error)
  {
    var first := Classify(host, root);
    if first.Failure? {
      return Failure(first.error);
    }
    var pending, bundled := first.value, [];
    forall lib <- pending
      ensures Reached(host, root, lib)
    {
      ReachedByRoot(host, root, lib);
    }
    while pending != []
      invariant Found(host, root, bundled, pending)
      decreases Elements(host.bundled) - Elements(bundled), |pending|
    {
      var name, rest := pending[|pending| - 1], pending[..|pending| - 1];
      assert pending == rest + [name];
      FoundOneMore(host, root, bundled, rest, name);
      pending := rest;
      if name !in bundled {
        ReachedIsBundled(host, root, name);
        var more := Classify(host, host.needed(name));
        if more.Failure? {
          return Failure(more.error);
        }
        pending := pending + more.value;
        assert name in Elements(host.bundled) - Elements(bundled);
        assert Elements(bundled + [name]) == Elements(bundled) + {name};
        bundled := bundled + [name];
      }
    }
    FoundAll(host, root, bundled);
    return Success(bundled);
  }

  /** So what is bundled needs nothing that is neither bundled nor the host's. */
  lemma NothingIsMissing(host: Host, root: seq<string>, bundled: seq<string>, lib: string)
    requires Sorted(host, root) && forall l :: l in bundled <==> Reached(host, root, l)
    requires lib in root || exists b <- bundled :: lib in host.needed(b)
    ensures lib in bundled || lib in host.provided
  {
    if lib in host.bundled {
      if lib in root {
        ToBundleHas(host, root, lib);
        ReachedByRoot(host, root, lib);
      } else {
        var b :| b in bundled && lib in host.needed(b);
        ToBundleHas(host, host.needed(b), lib);
        ReachedByNeed(host, root, b, lib);
      }
    }
  }
}
