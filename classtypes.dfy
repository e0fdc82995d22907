/**
 * The options of the class-type selector, derived from the current stores.
 * Saved loadouts hold the class values of an older encoding, so each store's
 * class type is remapped before it is offered: 0 -> 1, 1 -> 2, 2 -> 0.
 */
module ClassTypes {

  /** A character store (or the vault) as far as the selector needs it. */
  datatype Store = Store(isVault: bool, classType: int, className: string)

  /** One `{ label, value }` entry of `classTypeValues` (`title` is the label). */
  datatype ClassTypeOption = ClassTypeOption(title: string, value: int)

  /** The value of the "Any" option, which always comes first. */
  const AnyClass := -1

  /** The `switch` over the store's class type; a value it has no case for keeps the initial 0. */
  function LegacyRemap(classType: int): (r: int)
    ensures 0 <= r <= 2
    ensures r == 0 <==> !(0 <= classType <= 1)
  {
    if classType == 0 then 1
    else if classType == 1 then 2
    else if classType == 2 then 0
    else 0
  }

  lemma LegacyRemapValues(classType: int)
    ensures 0 <= classType <= 2 ==> LegacyRemap(classType) == (classType + 1) % 3
    ensures !(0 <= classType <= 2) ==> LegacyRemap(classType) == 0
    ensures 0 <= LegacyRemap(classType) <= 2
  {
  }

  /** The stores that are characters, not the vault, in order. */
  function NonVault(stores: seq<Store>): (r: seq<Store>)
    ensures |r| <= |stores|
  {
    if stores == [] then []
    else (if stores[0].isVault then [] else [stores[0]]) + NonVault(stores[1..])
  }

  /** The first store of each class type not in `seen`, in order: underscore's `uniq` by class type. */
  function UniqFrom(stores: seq<Store>, seen: set<int>): (r: seq<Store>)
    ensures |r| <= |stores|
    ensures forall i :: 0 <= i < |r| ==> r[i].classType !in seen
    ensures forall i, j :: 0 <= i < j < |r| ==> r[i].classType != r[j].classType
  {
    if stores == [] then []
    else if stores[0].classType in seen then UniqFrom(stores[1..], seen)
    else [stores[0]] + UniqFrom(stores[1..], seen + {stores[0].classType})
  }

  function UniqByClassType(stores: seq<Store>): seq<Store> {
    UniqFrom(stores, {})
  }

  /** The index of the first store of class type `c`, or `|stores|` when there is none. */
  function FirstOfClass(stores: seq<Store>, c: int): (r: nat)
    ensures r <= |stores|
    ensures r < |stores| ==> stores[r].classType == c
    ensures forall j :: 0 <= j < r ==> stores[j].classType != c
  {
    if stores == [] then 0
    else if stores[0].classType == c then 0
    else 1 + FirstOfClass(stores[1..], c)
  }

  /** The option list the store handler builds: "Any", then one option per store kept by `_.uniq`. */
  function ClassTypeList(anyLabel: string, stores: seq<Store>): (r: seq<ClassTypeOption>)
    ensures 1 <= |r| <= 1 + |stores|
    ensures r[0] == ClassTypeOption(anyLabel, AnyClass)
    ensures forall i :: 1 <= i < |r| ==> 0 <= r[i].value <= 2
  {
    var u := UniqByClassType(NonVault(stores));
    [ClassTypeOption(anyLabel, AnyClass)]
      + seq(|u|, i requires 0 <= i < |u| => ClassTypeOption(u[i].className, LegacyRemap(u[i].classType)))
  }

  /** Exactly the stores of `stores` that are not the vault, in order. */
  lemma {:induction false} NonVaultMembers(stores: seq<Store>)
    ensures forall s :: s in NonVault(stores) <==> s in stores && !s.isVault
  {
    if stores != [] {
      NonVaultMembers(stores[1..]);
      assert stores == [stores[0]] + stores[1..];
    }
  }

  /** Every store `UniqFrom` keeps has a new class type and is the first store of that class type. */
  lemma {:induction false} UniqFromPicksFirst(stores: seq<Store>, seen: set<int>)
    ensures forall i :: 0 <= i < |UniqFrom(stores, seen)| ==>
      UniqFrom(stores, seen)[i].classType !in seen
    ensures forall i :: 0 <= i < |UniqFrom(stores, seen)| ==>
      var c := UniqFrom(stores, seen)[i].classType;
      FirstOfClass(stores, c) < |stores| && stores[FirstOfClass(stores, c)] == UniqFrom(stores, seen)[i]
  {
    if stores != [] {
      var c0 := stores[0].classType;
      var rest := stores[1..];
      var seen' := if c0 in seen then seen else seen + {c0};
      var u := UniqFrom(stores, seen);
      var u' := UniqFrom(rest, seen');
      UniqFromPicksFirst(rest, seen');
      assert c0 in seen';
      forall i | 0 <= i < |u'|
        ensures FirstOfClass(stores, u'[i].classType) == 1 + FirstOfClass(rest, u'[i].classType)
        ensures stores[FirstOfClass(stores, u'[i].classType)] == u'[i]
      {
        assert u'[i].classType !in seen';
        assert u'[i].classType != c0;
      }
      if c0 !in seen {
        assert u == [stores[0]] + u';
        forall i | 1 <= i < |u|
          ensures u[i] == u'[i - 1]
        {
        }
      }
    }
  }

  /** The stores `UniqFrom` keeps appear in the order their class types are first seen. */
  lemma {:induction false} UniqFromFirstSeenOrder(stores: seq<Store>, seen: set<int>)
    ensures forall i, j :: 0 <= i < j < |UniqFrom(stores, seen)| ==>
      FirstOfClass(stores, UniqFrom(stores, seen)[i].classType)
        < FirstOfClass(stores, UniqFrom(stores, seen)[j].classType)
  {
    if stores != [] {
      var c0 := stores[0].classType;
      var rest := stores[1..];
      var seen' := if c0 in seen then seen else seen + {c0};
      var u := UniqFrom(stores, seen);
      var u' := UniqFrom(rest, seen');
      UniqFromFirstSeenOrder(rest, seen');
      UniqFromPicksFirst(rest, seen');
      forall i | 0 <= i < |u'|
        ensures FirstOfClass(stores, u'[i].classType) == 1 + FirstOfClass(rest, u'[i].classType)
      {
        assert u'[i].classType != c0;
      }
      if c0 !in seen {
        assert u == [stores[0]] + u';
        forall i, j | 0 <= i < j < |u|
          ensures FirstOfClass(stores, u[i].classType) < FirstOfClass(stores, u[j].classType)
        {
          assert u[j] == u'[j - 1];
          if i > 0 {
            assert u[i] == u'[i - 1];
          }
        }
      }
    }
  }

  /** Every class type of `stores` that is not in `seen` is kept by `UniqFrom`. */
  lemma {:induction false} UniqFromCovers(stores: seq<Store>, seen: set<int>)
    ensures forall q :: 0 <= q < |stores| && stores[q].classType !in seen ==>
      exists i :: 0 <= i < |UniqFrom(stores, seen)| && UniqFrom(stores, seen)[i].classType == stores[q].classType
  {
    if stores != [] {
      var c0 := stores[0].classType;
      var rest := stores[1..];
      var u := UniqFrom(stores, seen);
      var seen' := if c0 in seen then seen else seen + {c0};
      var u' := UniqFrom(rest, seen');
      UniqFromCovers(rest, seen');
      forall q | 0 <= q < |stores| && stores[q].classType !in seen
        ensures exists i :: 0 <= i < |u| && u[i].classType == stores[q].classType
      {
        if stores[q].classType == c0 {
          assert u == [stores[0]] + u';
          assert u[0].classType == stores[q].classType;
        } else {
          assert rest[q - 1] == stores[q];
          var i :| 0 <= i < |u'| && u'[i].classType == stores[q].classType;
          if c0 in seen {
            assert u == u';
            assert u[i].classType == stores[q].classType;
          } else {
            assert u == [stores[0]] + u';
            assert u[i + 1].classType == stores[q].classType;
          }
        }
      }
      assert forall q :: 0 <= q < |stores| && stores[q].classType !in seen ==>
        exists i :: 0 <= i < |u| && u[i].classType == stores[q].classType;
      assert u == UniqFrom(stores, seen);
    }
  }

  /**
   * `ps` lists, in increasing order, the indices of `nv` that are the first
   * store of their class type, one for every class type present in `nv`.
   */
  ghost predicate FirstSeenIndices(nv: seq<Store>, ps: seq<nat>) {
    && (forall i :: 0 <= i < |ps| ==> ps[i] < |nv| && FirstOfClass(nv, nv[ps[i]].classType) == ps[i])
    && (forall i, j :: 0 <= i < j < |ps| ==> ps[i] < ps[j])
    && (forall q :: 0 <= q < |nv| ==> exists i :: 0 <= i < |ps| && nv[ps[i]].classType == nv[q].classType)
  }

  /** The first-seen index, in `nv`, of each store `UniqByClassType` keeps. */
  lemma UniqFirstSeen(nv: seq<Store>) returns (ps: seq<nat>)
    ensures |ps| == |UniqByClassType(nv)|
    ensures forall i :: 0 <= i < |ps| ==> ps[i] < |nv| && nv[ps[i]] == UniqByClassType(nv)[i]
    ensures FirstSeenIndices(nv, ps)
  {
    var u := UniqByClassType(nv);
    UniqFromPicksFirst(nv, {});
    UniqFromFirstSeenOrder(nv, {});
    UniqFromCovers(nv, {});
    ps := seq(|u|, i requires 0 <= i < |u| => FirstOfClass(nv, u[i].classType));
    forall q | 0 <= q < |nv|
      ensures exists i :: 0 <= i < |ps| && nv[ps[i]].classType == nv[q].classType
    {
      var i :| 0 <= i < |u| && u[i].classType == nv[q].classType;
      assert nv[ps[i]] == u[i];
    }
  }

  /**
   * The class-type list starts with `{Any, -1}`, then has exactly one option per
   * distinct class type among the non-vault stores, in first-seen order, labelled
   * with the class name of that class's first store and valued by the legacy
   * remap of its class type.
   */
  lemma ClassTypeListShape(anyLabel: string, stores: seq<Store>) returns (ps: seq<nat>)
    ensures var nv := NonVault(stores);
      var r := ClassTypeList(anyLabel, stores);
      && FirstSeenIndices(nv, ps)
      && |r| == 1 + |ps|
      && r[0] == ClassTypeOption(anyLabel, AnyClass)
      && (forall i :: 0 <= i < |ps| ==>
            r[i + 1] == ClassTypeOption(nv[ps[i]].className, LegacyRemap(nv[ps[i]].classType)))
  {
    var nv := NonVault(stores);
    var u := UniqByClassType(nv);
    ps := UniqFirstSeen(nv);
    var r := ClassTypeList(anyLabel, stores);
    forall i | 0 <= i < |ps|
      ensures r[i + 1] == ClassTypeOption(nv[ps[i]].className, LegacyRemap(nv[ps[i]].classType))
    {
      assert r[i + 1] == ClassTypeOption(u[i].className, LegacyRemap(u[i].classType));
    }
  }
}
