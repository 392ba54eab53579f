/**
 * Session cleanup on one device: what a pass decides to uninstall, what the device looks like afterwards, and what a
 * pass can never touch, while the device's packages may also change from outside at any moment.
 */
module Packages {
  import opened Basics
  import opened Selection

  type Package = string

  // ---- what to remove ----

  ghost predicate Protected(pkg: Package, prefixes: seq<string>) {
    exists i :: 0 <= i < |prefixes| && prefixes[i] <= pkg
  }

  /** Installed during the session, and not protected by configuration. */
  ghost predicate Removable(pkg: Package, baseline: seq<Package>, prefixes: seq<string>) {
    pkg !in baseline && !Protected(pkg, prefixes)
  }

  ghost function ToRemove(current: seq<Package>, baseline: seq<Package>, prefixes: seq<string>): seq<Package> {
    Filter(p => Removable(p, baseline, prefixes), current)
  }

  /** isProtectedPackage. */
  method IsProtectedPackage(pkg: Package, prefixes: seq<string>) returns (found: bool)
    ensures found <==> Protected(pkg, prefixes)
  {
    for i := 0 to |prefixes|
      invariant forall j :: 0 <= j < i ==> !HasPrefix(pkg, prefixes[j])
    {
      if HasPrefix(pkg, prefixes[i]) {
        return true;
      }
    }
    return false;
  }

  /** newPackagesToRemove: what the listing shows that the baseline and the protected prefixes do not, in order. */
  method NewPackagesToRemove(current: seq<Package>, baseline: seq<Package>, prefixes: seq<string>)
    returns (out: seq<Package>)
    ensures out == ToRemove(current, baseline, prefixes)
    ensures forall p :: p in out <==> p in current && p !in baseline && !Protected(p, prefixes)
  {
    var base: map<Package, bool> := map[];
    for i := 0 to |baseline|
      invariant forall p :: p in base <==> p in baseline[..i]
    {
      base := base[baseline[i] := true];
    }
    assert baseline[..|baseline|] == baseline;
    out := [];
    for i := 0 to |current|
      invariant out == ToRemove(current[..i], baseline, prefixes)
    {
      var p := current[i];
      FilterStep(x => Removable(x, baseline, prefixes), current, i);
      var spared := p in base;
      if !spared {
        spared := IsProtectedPackage(p, prefixes);
      }
      if spared {
        continue;
      }
      out := out + [p];
    }
    assert current[..|current|] == current;
  }

  // ---- a pass, with the world changing around it ----

  /** What happens to the device from outside between two steps of a pass. */
  datatype Change = Change(gone: set<Package>, added: set<Package>)

  function Apply(packages: set<Package>, c: Change): set<Package> {
    packages - c.gone + c.added
  }

  /** Which uninstalls succeed, and what else happens before each step. */
  datatype World = World(succeeds: nat -> bool, before: nat -> Change)

  /** The device after the first n uninstalls of a pass. */
  function AfterUninstalls(packages: set<Package>, todo: seq<Package>, w: World, n: nat): set<Package>
    requires n <= |todo|
  {
    if n == 0 then packages else
      var p := Apply(AfterUninstalls(packages, todo, w, n - 1), w.before(n - 1));
      if w.succeeds(n - 1) then p - {todo[n - 1]} else p
  }

  /** Those of the first n uninstalls that ended in ok, in order. */
  function Attempts(todo: seq<Package>, w: World, n: nat, ok: bool): seq<Package>
    requires n <= |todo|
  {
    if n == 0 then [] else Attempts(todo, w, n - 1, ok) + if w.succeeds(n - 1) == ok then [todo[n - 1]] else []
  }

  /** The device after the same n changes from outside, had there been no pass. */
  function Untouched(packages: set<Package>, w: World, n: nat): set<Package> {
    if n == 0 then packages else Apply(Untouched(packages, w, n - 1), w.before(n - 1))
  }

  class Phone {
    var packages: set<Package>

    constructor (installed: set<Package>)
      ensures packages == installed
    {
      packages := installed;
    }

    /** `adb uninstall`, which may fail, after whatever happened to the device meanwhile. */
    method Uninstall(pkg: Package, meanwhile: Change, succeeds: bool) returns (ok: bool)
      modifies this
      ensures ok == succeeds
      ensures packages == if ok then Apply(old(packages), meanwhile) - {pkg} else Apply(old(packages), meanwhile)
    {
      packages := packages - meanwhile.gone + meanwhile.added;
      if succeeds {
        packages := packages - {pkg};
      }
      return succeeds;
    }

    /** runCleanup up to its last critical section; `listing` is the package list, None when listing failed. */
    method RunCleanup(listing: Option<seq<Package>>, baseline: seq<Package>, prefixes: seq<string>, w: World)
      returns (removed: seq<Package>, failed: seq<Package>)
      modifies this
      ensures listing.None? ==> packages == old(packages) && removed == [] && failed == []
      ensures listing.Some? ==>
                var todo := ToRemove(listing.value, baseline, prefixes);
                && packages == AfterUninstalls(old(packages), todo, w, |todo|)
                && removed == Attempts(todo, w, |todo|, true) && failed == Attempts(todo, w, |todo|, false)
      ensures forall p :: p in removed || p in failed ==> Removable(p, baseline, prefixes)
    {
      removed, failed := [], [];
      if listing.Some? {
        var todo := NewPackagesToRemove(listing.value, baseline, prefixes);
        for i := 0 to |todo|
          invariant packages == AfterUninstalls(old(packages), todo, w, i)
          invariant removed == Attempts(todo, w, i, true) && failed == Attempts(todo, w, i, false)
          invariant forall p :: p in removed || p in failed ==> Removable(p, baseline, prefixes)
        {
          assert todo[i] in todo;
          var ok := Uninstall(todo[i], w.before(i), w.succeeds(i));
          if ok {
            removed := removed + [todo[i]];
          } else {
            failed := failed + [todo[i]];
          }
        }
      }
    }
  }

  // ---- what a pass cannot do, and what it achieves ----

  /**
   * A package of the baseline, or a protected one, is on the device after a pass exactly when it would have been there
   * without the pass, whatever the listing said, whichever uninstalls succeeded, and whatever else happened.
   */
  lemma {:induction false} SparedPackage(packages: set<Package>, listing: seq<Package>, baseline: seq<Package>,
                                         prefixes: seq<string>, w: World, n: nat, pkg: Package)
    requires n <= |ToRemove(listing, baseline, prefixes)|
    requires !Removable(pkg, baseline, prefixes)
    ensures pkg in AfterUninstalls(packages, ToRemove(listing, baseline, prefixes), w, n)
        <==> pkg in Untouched(packages, w, n)
  {
    if n != 0 {
      SparedPackage(packages, listing, baseline, prefixes, w, n - 1, pkg);
      assert ToRemove(listing, baseline, prefixes)[n - 1] in ToRemove(listing, baseline, prefixes);
    }
  }

  /** On the device after any number of uninstalls exactly when it would be there without them, in every situation. */
  ghost predicate AlwaysSpared(pkg: Package, baseline: seq<Package>, prefixes: seq<string>) {
    forall packages: set<Package>, listing: seq<Package>, w: World, n: nat ::
      n <= |ToRemove(listing, baseline, prefixes)| ==>
        (pkg in Untouched(packages, w, n) <==>
         pkg in AfterUninstalls(packages, ToRemove(listing, baseline, prefixes), w, n))
  }

  /** A pass spares a package whatever happens exactly when the package is in the baseline or protected. */
  lemma SparedExactly(baseline: seq<Package>, prefixes: seq<string>, pkg: Package)
    ensures AlwaysSpared(pkg, baseline, prefixes) <==> pkg in baseline || Protected(pkg, prefixes)
  {
    if Removable(pkg, baseline, prefixes) {
      var w := World(_ => true, _ => Change({}, {}));
      var todo := ToRemove([pkg], baseline, prefixes);
      assert [pkg][..0] == [];
      assert todo == [pkg];
      assert AfterUninstalls({pkg}, todo, w, 0) == {pkg} == Untouched({pkg}, w, 0);
      assert pkg !in AfterUninstalls({pkg}, todo, w, 1);
      assert pkg in Untouched({pkg}, w, 1);
    } else {
      forall packages: set<Package>, listing: seq<Package>, w: World, n: nat
        | n <= |ToRemove(listing, baseline, prefixes)|
        ensures pkg in AfterUninstalls(packages, ToRemove(listing, baseline, prefixes), w, n)
            <==> pkg in Untouched(packages, w, n)
      {
        SparedPackage(packages, listing, baseline, prefixes, w, n, pkg);
      }
    }
  }

  ghost predicate Quiet(w: World) {
    forall i: nat {:trigger w.before(i)} :: w.before(i) == Change({}, {})
  }

  lemma {:induction false} QuietUninstalls(packages: set<Package>, todo: seq<Package>, w: World, n: nat)
    requires n <= |todo| && Quiet(w)
    ensures AfterUninstalls(packages, todo, w, n) == packages - set i | 0 <= i < n && w.succeeds(i) :: todo[i]
  {
    if n != 0 {
      QuietUninstalls(packages, todo, w, n - 1);
      assert w.before(n - 1) == Change({}, {});
      var front := set i | 0 <= i < n - 1 && w.succeeds(i) :: todo[i];
      var all := set i | 0 <= i < n && w.succeeds(i) :: todo[i];
      assert all == if w.succeeds(n - 1) then front + {todo[n - 1]} else front;
    }
  }

  /** The packages a session may leave behind. */
  ghost function Kept(packages: set<Package>, baseline: seq<Package>, prefixes: seq<string>): set<Package> {
    set p | p in packages && !Removable(p, baseline, prefixes)
  }

  /**
   * With a faithful listing and nobody else changing the device, a pass restores it exactly when every uninstall of a
   * package succeeds at least once: what is left is then what was there and is in the baseline or protected.
   */
  lemma RestoredExactly(packages: set<Package>, listing: seq<Package>, baseline: seq<Package>, prefixes: seq<string>,
      w: World)
    requires Quiet(w) && forall p :: p in listing <==> p in packages
    ensures var todo := ToRemove(listing, baseline, prefixes);
            (AfterUninstalls(packages, todo, w, |todo|) == Kept(packages, baseline, prefixes))
            <==> (forall p :: p in todo ==> exists i :: 0 <= i < |todo| && todo[i] == p && w.succeeds(i))
  {
    var todo := ToRemove(listing, baseline, prefixes);
    QuietUninstalls(packages, todo, w, |todo|);
    var gone := set i | 0 <= i < |todo| && w.succeeds(i) :: todo[i];
    assert forall p :: p in todo <==> p in packages && Removable(p, baseline, prefixes);
    assert forall p :: p in gone ==> p in todo;
    forall p | p in todo
      ensures p in gone <==> p !in AfterUninstalls(packages, todo, w, |todo|)
    {
    }
    assert Kept(packages, baseline, prefixes) == packages - set p | p in todo;
    assert AfterUninstalls(packages, todo, w, |todo|) == Kept(packages, baseline, prefixes)
        <==> gone == set p | p in todo;
  }

  /** A second pass over a restored device finds nothing to do. */
  lemma SecondPassIdle(packages: set<Package>, again: seq<Package>, baseline: seq<Package>, prefixes: seq<string>)
    requires forall p :: p in again ==> p in Kept(packages, baseline, prefixes)
    ensures ToRemove(again, baseline, prefixes) == []
  {
    FilterNone(p => Removable(p, baseline, prefixes), again);
  }
}
