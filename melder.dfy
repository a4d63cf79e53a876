/**
 * The melder: a merge over two streams of users that both arrive in order
 * of lastname. Users whose (lower-cased, stripped) lastname occurs on both
 * sides are handed, one lastname at a time, to the combining engine; all
 * others are dropped. A queue that times out is a stream that has run out.
 */
module Melding {
  import opened Text
  import opened Wrappers
  import opened Records
  import opened Dates
  import opened Combining
  import MysqlLoading

  /** The users sharing one lastname: `mysql_list` and `friven_list`. */
  datatype Group<A, B> = Group(mysqls: seq<B>, frivens: seq<A>)

  /** Sorted by key as `<` on Python strings orders them (ties allowed). */
  predicate SortedBy<T>(key: T -> string, s: seq<T>) {
    forall i, j :: 0 <= i < j < |s| ==> !Less(key(s[j]), key(s[i]))
  }

  /** Two strings are equal or ordered one way or the other. */
  lemma Trichotomy(a: string, b: string)
    ensures a == b || Less(a, b) || Less(b, a)
  {
    if a != b {
      LessTotal(a, b);
    }
  }

  /** The number of leading items of `s` whose key is `w`: the users pulled
      by one `while ..._lastname == working_lastname` loop. */
  function RunLength<T>(key: T -> string, s: seq<T>, w: string): (n: nat)
    ensures n <= |s|
    ensures forall i :: 0 <= i < n ==> key(s[i]) == w
    ensures n == |s| || key(s[n]) != w
    decreases |s|
  {
    if s == [] || key(s[0]) != w then 0 else 1 + RunLength(key, s[1..], w)
  }

  /** The maximal run is the only prefix of key `w` that cannot be extended. */
  lemma RunLengthUnique<T>(key: T -> string, s: seq<T>, w: string, n: nat)
    requires n <= |s|
    requires forall i :: 0 <= i < n ==> key(s[i]) == w
    requires n == |s| || key(s[n]) != w
    ensures n == RunLength(key, s, w)
  {
  }

  /** The reference merge-join: skip the side whose current key sorts
      first; on equal keys take the whole run of that key on both sides as
      one group. */
  function MergeJoin<A, B>(fkey: A -> string, mkey: B -> string, frivens: seq<A>, mysqls: seq<B>): seq<Group<A, B>>
    decreases |frivens| + |mysqls|
  {
    if frivens == [] || mysqls == [] then []
    else
      var fl := fkey(frivens[0]);
      var ml := mkey(mysqls[0]);
      if Less(ml, fl) then MergeJoin(fkey, mkey, frivens, mysqls[1..])
      else if Less(fl, ml) then MergeJoin(fkey, mkey, frivens[1..], mysqls)
      else
        var nf := RunLength(fkey, frivens, fl);
        var nm := RunLength(mkey, mysqls, fl);
        [Group(mysqls[..nm], frivens[..nf])] + MergeJoin(fkey, mkey, frivens[nf..], mysqls[nm..])
  }

  /** A MySQL user whose key sorts first is skipped. */
  lemma JoinSkipsMysql<A, B>(fkey: A -> string, mkey: B -> string, frivens: seq<A>, mysqls: seq<B>)
    requires frivens != [] && mysqls != [] && Less(mkey(mysqls[0]), fkey(frivens[0]))
    ensures MergeJoin(fkey, mkey, frivens, mysqls) == MergeJoin(fkey, mkey, frivens, mysqls[1..])
  {
  }

  /** A Friendly Vendor user whose key sorts first is skipped. */
  lemma JoinSkipsFriven<A, B>(fkey: A -> string, mkey: B -> string, frivens: seq<A>, mysqls: seq<B>)
    requires frivens != [] && mysqls != [] && Less(fkey(frivens[0]), mkey(mysqls[0]))
    ensures MergeJoin(fkey, mkey, frivens, mysqls) == MergeJoin(fkey, mkey, frivens[1..], mysqls)
  {
    LessAsymmetric(fkey(frivens[0]), mkey(mysqls[0]));
  }

  /** Equal keys in front: the runs of that key form the next group. */
  lemma JoinTakesGroup<A, B>(fkey: A -> string, mkey: B -> string, frivens: seq<A>, mysqls: seq<B>)
    requires frivens != [] && mysqls != [] && fkey(frivens[0]) == mkey(mysqls[0])
    ensures var w := fkey(frivens[0]);
      var nf := RunLength(fkey, frivens, w);
      var nm := RunLength(mkey, mysqls, w);
      MergeJoin(fkey, mkey, frivens, mysqls)
      == [Group(mysqls[..nm], frivens[..nf])] + MergeJoin(fkey, mkey, frivens[nf..], mysqls[nm..])
  {
    LessIrreflexive(fkey(frivens[0]));
  }

  /** A group as `combine` receives it: users on both sides, all from the
      inputs, and all with the key of its first Friendly Vendor user. */
  predicate Matched<A(==), B(==)>(fkey: A -> string, mkey: B -> string, frivens: seq<A>, mysqls: seq<B>,
                          g: Group<A, B>)
  {
    |g.frivens| > 0 && |g.mysqls| > 0
    && (forall x :: x in g.frivens ==> x in frivens && fkey(x) == fkey(g.frivens[0]))
    && (forall y :: y in g.mysqls ==> y in mysqls && mkey(y) == fkey(g.frivens[0]))
  }

  lemma MatchedWider<A, B>(fkey: A -> string, mkey: B -> string, frivens: seq<A>, mysqls: seq<B>,
                           moreFrivens: seq<A>, moreMysqls: seq<B>, g: Group<A, B>)
    requires Matched(fkey, mkey, frivens, mysqls, g)
    requires forall x :: x in frivens ==> x in moreFrivens
    requires forall y :: y in mysqls ==> y in moreMysqls
    ensures Matched(fkey, mkey, moreFrivens, moreMysqls, g)
  {
  }

  predicate AllMatched<A(==), B(==)>(fkey: A -> string, mkey: B -> string, frivens: seq<A>, mysqls: seq<B>,
                             groups: seq<Group<A, B>>)
  {
    forall k :: 0 <= k < |groups| ==> Matched(fkey, mkey, frivens, mysqls, groups[k])
  }

  /** Every group pairs users of one lastname that occur in the inputs, with
      at least one user on each side; no order of the inputs is needed. */
  lemma {:induction false} JoinGroupsMatched<A, B>(fkey: A -> string, mkey: B -> string,
                                                   frivens: seq<A>, mysqls: seq<B>)
    ensures AllMatched(fkey, mkey, frivens, mysqls, MergeJoin(fkey, mkey, frivens, mysqls))
    decreases |frivens| + |mysqls|
  {
    if frivens != [] && mysqls != [] {
      var fl := fkey(frivens[0]);
      var ml := mkey(mysqls[0]);
      var groups := MergeJoin(fkey, mkey, frivens, mysqls);
      if Less(ml, fl) {
        JoinGroupsMatched(fkey, mkey, frivens, mysqls[1..]);
        assert groups == MergeJoin(fkey, mkey, frivens, mysqls[1..]);
        assert forall y :: y in mysqls[1..] ==> y in mysqls;
        forall k | 0 <= k < |groups| ensures Matched(fkey, mkey, frivens, mysqls, groups[k]) {
          MatchedWider(fkey, mkey, frivens, mysqls[1..], frivens, mysqls, groups[k]);
        }
      } else if Less(fl, ml) {
        JoinGroupsMatched(fkey, mkey, frivens[1..], mysqls);
        assert groups == MergeJoin(fkey, mkey, frivens[1..], mysqls);
        assert forall x :: x in frivens[1..] ==> x in frivens;
        forall k | 0 <= k < |groups| ensures Matched(fkey, mkey, frivens, mysqls, groups[k]) {
          MatchedWider(fkey, mkey, frivens[1..], mysqls, frivens, mysqls, groups[k]);
        }
      } else {
        Trichotomy(fl, ml);
        var nf := RunLength(fkey, frivens, fl);
        var nm := RunLength(mkey, mysqls, fl);
        var rest := MergeJoin(fkey, mkey, frivens[nf..], mysqls[nm..]);
        assert groups == [Group(mysqls[..nm], frivens[..nf])] + rest;
        JoinGroupsMatched(fkey, mkey, frivens[nf..], mysqls[nm..]);
        assert AllMatched(fkey, mkey, frivens[nf..], mysqls[nm..], rest);
        assert forall x :: x in frivens[nf..] ==> x in frivens;
        assert forall y :: y in mysqls[nm..] ==> y in mysqls;
        assert Matched(fkey, mkey, frivens, mysqls, groups[0]) by {
          assert frivens[..nf][0] == frivens[0];
        }
        forall k | 1 <= k < |groups| ensures Matched(fkey, mkey, frivens, mysqls, groups[k]) {
          assert groups[k] == rest[k - 1];
          assert Matched(fkey, mkey, frivens[nf..], mysqls[nm..], rest[k - 1]);
          MatchedWider(fkey, mkey, frivens[nf..], mysqls[nm..], frivens, mysqls, groups[k]);
        }
      }
    }
  }

  lemma SortedSuffix<T>(key: T -> string, s: seq<T>, n: nat)
    requires SortedBy(key, s) && n <= |s|
    ensures SortedBy(key, s[n..])
  {
    forall i, j | 0 <= i < j < |s| - n ensures !Less(key(s[n..][j]), key(s[n..][i])) {
      assert s[n..][i] == s[n + i] && s[n..][j] == s[n + j];
    }
  }

  /** In a sorted sequence no key sorts before the first one. */
  lemma SortedFirst<T>(key: T -> string, s: seq<T>, i: nat)
    requires SortedBy(key, s) && i < |s|
    ensures !Less(key(s[i]), key(s[0]))
  {
    if i == 0 {
      LessIrreflexive(key(s[0]));
    }
  }

  /** In a sorted sequence that starts with key `w`, everything after the
      run of `w` sorts strictly after `w`. */
  lemma {:induction false} AfterRunAbove<T>(key: T -> string, s: seq<T>, w: string, p: nat)
    requires SortedBy(key, s) && |s| > 0 && key(s[0]) == w
    requires RunLength(key, s, w) <= p < |s|
    ensures Less(w, key(s[p]))
  {
    var n := RunLength(key, s, w);
    assert n > 0;
    assert key(s[p]) != w by {
      assert !Less(key(s[n]), w);
      if p > n {
        assert !Less(key(s[p]), key(s[n]));
      }
      Trichotomy(key(s[n]), w);
      Trichotomy(key(s[p]), key(s[n]));
    }
    Trichotomy(w, key(s[p]));
  }

  /** In a sorted sequence that starts with key `w`, every item of key `w`
      is in the leading run. */
  lemma InRun<T>(key: T -> string, s: seq<T>, w: string, i: nat)
    requires SortedBy(key, s) && |s| > 0 && key(s[0]) == w
    requires i < |s| && key(s[i]) == w
    ensures i < RunLength(key, s, w)
  {
    if RunLength(key, s, w) <= i {
      AfterRunAbove(key, s, w, i);
      LessIrreflexive(w);
    }
  }

  /** `x` and `y` are handed to `combine` in the same call. */
  predicate Together<A(==), B(==)>(groups: seq<Group<A, B>>, x: A, y: B) {
    exists k :: 0 <= k < |groups| && x in groups[k].frivens && y in groups[k].mysqls
  }

  /** On sorted inputs no match is lost: a Friendly Vendor user and a MySQL
      user with the same key end up in one group. */
  lemma {:induction false} JoinFindsEveryMatch<A, B>(fkey: A -> string, mkey: B -> string,
                                                     frivens: seq<A>, mysqls: seq<B>, i: nat, j: nat)
    requires SortedBy(fkey, frivens) && SortedBy(mkey, mysqls)
    requires i < |frivens| && j < |mysqls| && fkey(frivens[i]) == mkey(mysqls[j])
    ensures Together(MergeJoin(fkey, mkey, frivens, mysqls), frivens[i], mysqls[j])
    decreases |frivens| + |mysqls|
  {
    var fl := fkey(frivens[0]);
    var ml := mkey(mysqls[0]);
    var groups := MergeJoin(fkey, mkey, frivens, mysqls);
    SortedFirst(fkey, frivens, i);
    SortedFirst(mkey, mysqls, j);
    if Less(ml, fl) {
      assert j > 0;
      JoinSkipsMysql(fkey, mkey, frivens, mysqls);
      SortedSuffix(mkey, mysqls, 1);
      assert mysqls[1..][j - 1] == mysqls[j];
      JoinFindsEveryMatch(fkey, mkey, frivens, mysqls[1..], i, j - 1);
    } else if Less(fl, ml) {
      assert i > 0;
      JoinSkipsFriven(fkey, mkey, frivens, mysqls);
      SortedSuffix(fkey, frivens, 1);
      assert frivens[1..][i - 1] == frivens[i];
      JoinFindsEveryMatch(fkey, mkey, frivens[1..], mysqls, i - 1, j);
    } else {
      Trichotomy(fl, ml);
      var nf := RunLength(fkey, frivens, fl);
      var nm := RunLength(mkey, mysqls, fl);
      var rest := MergeJoin(fkey, mkey, frivens[nf..], mysqls[nm..]);
      JoinTakesGroup(fkey, mkey, frivens, mysqls);
      assert groups == [Group(mysqls[..nm], frivens[..nf])] + rest;
      if fkey(frivens[i]) == fl {
        InRun(fkey, frivens, fl, i);
        InRun(mkey, mysqls, fl, j);
        TogetherInHead(frivens, mysqls, nf, nm, i, j, rest);
      } else {
        assert nf <= i && nm <= j;
        SortedSuffix(fkey, frivens, nf);
        SortedSuffix(mkey, mysqls, nm);
        assert frivens[nf..][i - nf] == frivens[i];
        assert mysqls[nm..][j - nm] == mysqls[j];
        JoinFindsEveryMatch(fkey, mkey, frivens[nf..], mysqls[nm..], i - nf, j - nm);
        TogetherLater(Group(mysqls[..nm], frivens[..nf]), rest, frivens[i], mysqls[j]);
      }
    }
  }

  /** Users inside the runs that form the first group are in it. */
  lemma TogetherInHead<A, B>(frivens: seq<A>, mysqls: seq<B>, nf: nat, nm: nat, i: nat, j: nat,
                             rest: seq<Group<A, B>>)
    requires i < nf <= |frivens| && j < nm <= |mysqls|
    ensures Together([Group(mysqls[..nm], frivens[..nf])] + rest, frivens[i], mysqls[j])
  {
    var groups := [Group(mysqls[..nm], frivens[..nf])] + rest;
    assert frivens[..nf][i] == frivens[i];
    assert mysqls[..nm][j] == mysqls[j];
    assert frivens[i] in groups[0].frivens && mysqls[j] in groups[0].mysqls;
  }

  /** Users together in the later groups stay together with one more
      group in front. */
  lemma TogetherLater<A, B>(g: Group<A, B>, rest: seq<Group<A, B>>, x: A, y: B)
    requires Together(rest, x, y)
    ensures Together([g] + rest, x, y)
  {
    var k :| 0 <= k < |rest| && x in rest[k].frivens && y in rest[k].mysqls;
    assert ([g] + rest)[k + 1] == rest[k];
  }

  /** Every group's key sorts after `w`. */
  predicate Above<A, B>(fkey: A -> string, groups: seq<Group<A, B>>, w: string) {
    forall k :: 0 <= k < |groups| ==> |groups[k].frivens| > 0 && Less(w, fkey(groups[k].frivens[0]))
  }

  /** When every Friendly Vendor key sorts after `w`, so does every group's. */
  lemma GroupsAbove<A, B>(fkey: A -> string, mkey: B -> string, frivens: seq<A>, mysqls: seq<B>, w: string)
    requires forall p :: 0 <= p < |frivens| ==> Less(w, fkey(frivens[p]))
    ensures Above(fkey, MergeJoin(fkey, mkey, frivens, mysqls), w)
  {
    var groups := MergeJoin(fkey, mkey, frivens, mysqls);
    JoinGroupsMatched(fkey, mkey, frivens, mysqls);
    forall k | 0 <= k < |groups| ensures |groups[k].frivens| > 0 && Less(w, fkey(groups[k].frivens[0])) {
      assert AllMatched(fkey, mkey, frivens, mysqls, groups);
      assert Matched(fkey, mkey, frivens, mysqls, groups[k]);
      assert groups[k].frivens[0] in frivens;
    }
  }

  /** Every group has a first Friendly Vendor user, and their keys strictly
      ascend. */
  predicate Ascending<A, B>(fkey: A -> string, groups: seq<Group<A, B>>) {
    (forall k :: 0 <= k < |groups| ==> |groups[k].frivens| > 0)
    && forall k, l :: 0 <= k < l < |groups| ==>
         Less(fkey(groups[k].frivens[0]), fkey(groups[l].frivens[0]))
  }

  lemma AscendingCons<A, B>(fkey: A -> string, g: Group<A, B>, rest: seq<Group<A, B>>)
    requires |g.frivens| > 0 && Ascending(fkey, rest) && Above(fkey, rest, fkey(g.frivens[0]))
    ensures Ascending(fkey, [g] + rest)
  {
    var groups := [g] + rest;
    forall k, l | 0 <= k < l < |groups|
      ensures Less(fkey(groups[k].frivens[0]), fkey(groups[l].frivens[0]))
    {
      assert groups[l] == rest[l - 1];
      if k > 0 {
        assert groups[k] == rest[k - 1];
      }
    }
  }

  /** On sorted inputs each lastname is sent once, in ascending order. */
  lemma {:induction false} JoinAscending<A, B>(fkey: A -> string, mkey: B -> string,
                                               frivens: seq<A>, mysqls: seq<B>)
    requires SortedBy(fkey, frivens) && SortedBy(mkey, mysqls)
    ensures Ascending(fkey, MergeJoin(fkey, mkey, frivens, mysqls))
    decreases |frivens| + |mysqls|
  {
    if frivens != [] && mysqls != [] {
      var fl := fkey(frivens[0]);
      var ml := mkey(mysqls[0]);
      if Less(ml, fl) {
        SortedSuffix(mkey, mysqls, 1);
        JoinAscending(fkey, mkey, frivens, mysqls[1..]);
        assert MergeJoin(fkey, mkey, frivens, mysqls) == MergeJoin(fkey, mkey, frivens, mysqls[1..]);
      } else if Less(fl, ml) {
        SortedSuffix(fkey, frivens, 1);
        JoinAscending(fkey, mkey, frivens[1..], mysqls);
        assert MergeJoin(fkey, mkey, frivens, mysqls) == MergeJoin(fkey, mkey, frivens[1..], mysqls);
      } else {
        var groups := MergeJoin(fkey, mkey, frivens, mysqls);
        var nf := RunLength(fkey, frivens, fl);
        var nm := RunLength(mkey, mysqls, fl);
        var rest := MergeJoin(fkey, mkey, frivens[nf..], mysqls[nm..]);
        assert groups == [Group(mysqls[..nm], frivens[..nf])] + rest;
        SortedSuffix(fkey, frivens, nf);
        SortedSuffix(mkey, mysqls, nm);
        JoinAscending(fkey, mkey, frivens[nf..], mysqls[nm..]);
        assert Ascending(fkey, rest);
        forall p | 0 <= p < |frivens[nf..]| ensures Less(fl, fkey(frivens[nf..][p])) {
          AfterRunAbove(fkey, frivens, fl, nf + p);
        }
        GroupsAbove(fkey, mkey, frivens[nf..], mysqls[nm..], fl);
        assert frivens[..nf][0] == frivens[0];
        AscendingCons(fkey, Group(mysqls[..nm], frivens[..nf]), rest);
      }
    }
  }

  /** The example of the melder's documentation: Bob Allen on both sides,
      Judd Arkin only at Friendly Vendor, and two Asburys on each side
      (Fred at both, Helen only in MySQL, June only at Friendly Vendor). */
  lemma DocumentedExample<A, B>(fkey: A -> string, mkey: B -> string,
                                bobF: A, juddF: A, juneF: A, fredF: A, bobM: B, fredM: B, helenM: B)
    requires fkey(bobF) == mkey(bobM) == "allen" && fkey(juddF) == "arkin"
    requires fkey(juneF) == fkey(fredF) == mkey(fredM) == mkey(helenM) == "asbury"
    ensures MergeJoin(fkey, mkey, [bobF, juddF, juneF, fredF], [bobM, fredM, helenM])
         == [Group([bobM], [bobF]), Group([fredM, helenM], [juneF, fredF])]
  {
    var frivens := [bobF, juddF, juneF, fredF];
    var mysqls := [bobM, fredM, helenM];
    assert frivens[1..] == [juddF, juneF, fredF] && mysqls[1..] == [fredM, helenM];
    DocumentedAsburys(fkey, mkey, juddF, juneF, fredF, fredM, helenM);
    RunLengthUnique(fkey, frivens, "allen", 1);
    RunLengthUnique(mkey, mysqls, "allen", 1);
    JoinTakesGroup(fkey, mkey, frivens, mysqls);
    assert frivens[..1] == [bobF] && mysqls[..1] == [bobM];
  }

  /** The rest of the documented example: Judd Arkin is skipped and the
      Asburys form one group. */
  lemma DocumentedAsburys<A, B>(fkey: A -> string, mkey: B -> string,
                                juddF: A, juneF: A, fredF: A, fredM: B, helenM: B)
    requires fkey(juddF) == "arkin"
    requires fkey(juneF) == fkey(fredF) == mkey(fredM) == mkey(helenM) == "asbury"
    ensures MergeJoin(fkey, mkey, [juddF, juneF, fredF], [fredM, helenM])
         == [Group([fredM, helenM], [juneF, fredF])]
  {
    var frivens1, frivens2, mysqls1 := [juddF, juneF, fredF], [juneF, fredF], [fredM, helenM];
    assert frivens1[1..] == frivens2;
    RunLengthUnique(fkey, frivens2, "asbury", 2);
    RunLengthUnique(mkey, mysqls1, "asbury", 2);
    JoinTakesGroup(fkey, mkey, frivens2, mysqls1);
    assert frivens2[2..] == [] && mysqls1[2..] == [];
    assert frivens2[..2] == frivens2 && mysqls1[..2] == mysqls1;
    assert MergeJoin(fkey, mkey, frivens2, mysqls1) == [Group(mysqls1, frivens2)];
    assert Less("arkin", "asbury");
    JoinSkipsFriven(fkey, mkey, frivens1, mysqls1);
  }

  /** The one-sided lastnames of the melder's test streams: Opom, Redlin
      and Zoc at Friendly Vendor, Queen and Yarrow in MySQL, all skipped. */
  lemma OneSidedSkipped<A, B>(fkey: A -> string, mkey: B -> string,
                              opom: A, redlin: A, zoc: A, queen: B, yarrow: B)
    requires fkey(opom) == "opom" && fkey(redlin) == "redlin" && fkey(zoc) == "zoc"
    requires mkey(queen) == "queen" && mkey(yarrow) == "yarrow"
    ensures MergeJoin(fkey, mkey, [opom, redlin, zoc], [queen, yarrow]) == []
  {
    var f2, f3, f4 := [opom, redlin, zoc], [redlin, zoc], [zoc];
    var m3, m4 := [queen, yarrow], [yarrow];
    assert f2[1..] == f3 && f3[1..] == f4 && m3[1..] == m4 && m4[1..] == [];
    assert Less("yarrow", "zoc");
    assert MergeJoin(fkey, mkey, f4, m4) == [];
    assert Less("redlin", "yarrow");
    JoinSkipsFriven(fkey, mkey, f3, m4);
    assert Less("queen", "redlin");
    JoinSkipsMysql(fkey, mkey, f3, m3);
    assert Less("opom", "queen");
    JoinSkipsFriven(fkey, mkey, f2, m3);
  }

  /** The melder's test streams: Rona and Kyle Nistler, Opom, Redlin and
      Zoc at Friendly Vendor; Anthony, Judy and Kyle Nistler, Queen and
      Yarrow in MySQL. Only the Nistlers form a group. */
  lemma TestStreamsOneGroup<A, B>(fkey: A -> string, mkey: B -> string,
                                  rona: A, kyleF: A, opom: A, redlin: A, zoc: A,
                                  anthony: B, judy: B, kyleM: B, queen: B, yarrow: B)
    requires fkey(rona) == fkey(kyleF) == "nistler"
    requires mkey(anthony) == mkey(judy) == mkey(kyleM) == "nistler"
    requires fkey(opom) == "opom" && fkey(redlin) == "redlin" && fkey(zoc) == "zoc"
    requires mkey(queen) == "queen" && mkey(yarrow) == "yarrow"
    ensures MergeJoin(fkey, mkey, [rona, kyleF, opom, redlin, zoc], [anthony, judy, kyleM, queen, yarrow])
         == [Group([anthony, judy, kyleM], [rona, kyleF])]
  {
    var frivens := [rona, kyleF, opom, redlin, zoc];
    var mysqls := [anthony, judy, kyleM, queen, yarrow];
    OneSidedSkipped(fkey, mkey, opom, redlin, zoc, queen, yarrow);
    assert frivens[2..] == [opom, redlin, zoc] && mysqls[3..] == [queen, yarrow];
    RunLengthUnique(fkey, frivens, "nistler", 2);
    RunLengthUnique(mkey, mysqls, "nistler", 3);
    JoinTakesGroup(fkey, mkey, frivens, mysqls);
    assert frivens[..2] == [rona, kyleF] && mysqls[..3] == [anthony, judy, kyleM];
  }

  /** `while mysql_lastname < friven_lastname`: MySQL users are pulled
      until one sorts at or after `frivens[fc]`, or the queue times out
      (`mc == |mysqls|`). Skipped users belong to no group. */
  method SkipMysqls<A, B>(fkey: A -> string, mkey: B -> string, frivens: seq<A>, mysqls: seq<B>,
                          fc: nat, mc0: nat)
    returns (mc: nat)
    requires fc < |frivens| && mc0 < |mysqls|
    ensures mc0 <= mc <= |mysqls|
    ensures mc < |mysqls| ==> !Less(mkey(mysqls[mc]), fkey(frivens[fc]))
    ensures MergeJoin(fkey, mkey, frivens[fc..], mysqls[mc0..]) == MergeJoin(fkey, mkey, frivens[fc..], mysqls[mc..])
  {
    mc := mc0;
    while Less(mkey(mysqls[mc]), fkey(frivens[fc]))
      invariant mc0 <= mc < |mysqls|
      invariant MergeJoin(fkey, mkey, frivens[fc..], mysqls[mc0..]) == MergeJoin(fkey, mkey, frivens[fc..], mysqls[mc..])
      decreases |mysqls| - mc
    {
      assert frivens[fc..][0] == frivens[fc] && mysqls[mc..][0] == mysqls[mc];
      JoinSkipsMysql(fkey, mkey, frivens[fc..], mysqls[mc..]);
      assert mysqls[mc..][1..] == mysqls[mc + 1..];
      mc := mc + 1;
      if mc == |mysqls| {
        return;
      }
    }
  }

  /** `while friven_lastname < mysql_lastname`: the mirror image. */
  method SkipFrivens<A, B>(fkey: A -> string, mkey: B -> string, frivens: seq<A>, mysqls: seq<B>,
                           fc0: nat, mc: nat)
    returns (fc: nat)
    requires fc0 < |frivens| && mc < |mysqls|
    ensures fc0 <= fc <= |frivens|
    ensures fc < |frivens| ==> !Less(fkey(frivens[fc]), mkey(mysqls[mc]))
    ensures MergeJoin(fkey, mkey, frivens[fc0..], mysqls[mc..]) == MergeJoin(fkey, mkey, frivens[fc..], mysqls[mc..])
  {
    fc := fc0;
    while Less(fkey(frivens[fc]), mkey(mysqls[mc]))
      invariant fc0 <= fc < |frivens|
      invariant MergeJoin(fkey, mkey, frivens[fc0..], mysqls[mc..]) == MergeJoin(fkey, mkey, frivens[fc..], mysqls[mc..])
      decreases |frivens| - fc
    {
      assert frivens[fc..][0] == frivens[fc] && mysqls[mc..][0] == mysqls[mc];
      JoinSkipsFriven(fkey, mkey, frivens[fc..], mysqls[mc..]);
      assert frivens[fc..][1..] == frivens[fc + 1..];
      fc := fc + 1;
      if fc == |frivens| {
        return;
      }
    }
  }

  /** `while ..._lastname == working_lastname`: append the current user and
      pull the next, until the key changes or the queue times out
      (`next == |s|`). */
  method PullRun<T>(key: T -> string, s: seq<T>, start: nat, working: string)
    returns (run: seq<T>, next: nat)
    requires start <= |s|
    ensures start <= next <= |s| && run == s[start..next]
    ensures forall i :: start <= i < next ==> key(s[i]) == working
    ensures next == |s| || key(s[next]) != working
  {
    run, next := [], start;
    while next < |s| && key(s[next]) == working
      invariant start <= next <= |s|
      invariant run == s[start..next]
      invariant forall i :: start <= i < next ==> key(s[i]) == working
      decreases |s| - next
    {
      run := run + [s[next]];
      next := next + 1;
    }
  }

  /** One pass of the outer `while True` of `meld`, from the current users
      `frivens[fc0]` and `mysqls[mc0]`: skip, skip, and on equal keys pull
      the whole run of that key from each side. An index equal to the
      length is a queue that timed out; every pass pulls at least one user. */
  method NextGroup<A, B>(fkey: A -> string, mkey: B -> string, frivens: seq<A>, mysqls: seq<B>,
                         fc0: nat, mc0: nat)
    returns (group: Option<Group<A, B>>, fc: nat, mc: nat)
    requires fc0 < |frivens| && mc0 < |mysqls|
    ensures fc0 <= fc <= |frivens| && mc0 <= mc <= |mysqls| && fc + mc > fc0 + mc0
    ensures MergeJoin(fkey, mkey, frivens[fc0..], mysqls[mc0..])
         == (if group.Some? then [group.value] else []) + MergeJoin(fkey, mkey, frivens[fc..], mysqls[mc..])
  {
    fc := fc0;
    mc := SkipMysqls(fkey, mkey, frivens, mysqls, fc, mc0);
    if mc == |mysqls| {
      return None, fc, mc;
    }
    fc := SkipFrivens(fkey, mkey, frivens, mysqls, fc0, mc);
    if fc == |frivens| {
      return None, fc, mc;
    }
    var fl, ml := fkey(frivens[fc]), mkey(mysqls[mc]);
    Trichotomy(fl, ml);
    if fl == ml {
      var fstart, mstart := fc, mc;
      var fs, ms;
      fs, fc := PullRun(fkey, frivens, fstart, fl);
      ms, mc := PullRun(mkey, mysqls, mstart, fl);
      TakeRuns(fkey, mkey, frivens, mysqls, fstart, mstart, fc, mc);
      group := Some(Group(ms, fs));
    } else {
      group := None;
    }
  }

  /** The runs `frivens[fstart..fc]` and `mysqls[mstart..mc]` of the common
      key in front form the next group. */
  lemma TakeRuns<A, B>(fkey: A -> string, mkey: B -> string, frivens: seq<A>, mysqls: seq<B>,
                       fstart: nat, mstart: nat, fc: nat, mc: nat)
    requires fstart < fc <= |frivens| && mstart < mc <= |mysqls|
    requires forall i :: fstart <= i < fc ==> fkey(frivens[i]) == fkey(frivens[fstart])
    requires forall i :: mstart <= i < mc ==> mkey(mysqls[i]) == fkey(frivens[fstart])
    requires fc == |frivens| || fkey(frivens[fc]) != fkey(frivens[fstart])
    requires mc == |mysqls| || mkey(mysqls[mc]) != fkey(frivens[fstart])
    ensures MergeJoin(fkey, mkey, frivens[fstart..], mysqls[mstart..])
         == [Group(mysqls[mstart..mc], frivens[fstart..fc])] + MergeJoin(fkey, mkey, frivens[fc..], mysqls[mc..])
  {
    var fr, mr := frivens[fstart..], mysqls[mstart..];
    var w := fkey(frivens[fstart]);
    assert fr[0] == frivens[fstart] && mr[0] == mysqls[mstart];
    RunLengthUnique(fkey, fr, w, fc - fstart);
    RunLengthUnique(mkey, mr, w, mc - mstart);
    JoinTakesGroup(fkey, mkey, fr, mr);
    assert fr[..fc - fstart] == frivens[fstart..fc] && fr[fc - fstart..] == frivens[fc..];
    assert mr[..mc - mstart] == mysqls[mstart..mc] && mr[mc - mstart..] == mysqls[mc..];
  }

  /** `friven_user['lastname'].lower().strip()` */
  function FrivenName(f: FrivenUser): string {
    Key(f.lastname)
  }

  /** `mysql_user['lastname'].lower().strip()` */
  function MysqlName(m: MysqlUser): string {
    Key(m.lastname)
  }

  /** The groups `meld` hands to the engine when the MySQL loader, started
      at lastname `start`, yields `mysqlFrom(start)`: the loader is started
      at the first Friendly Vendor user's key. */
  function Melded(frivens: seq<FrivenUser>, mysqlFrom: string -> seq<MysqlUser>): seq<Group<FrivenUser, MysqlUser>> {
    if frivens == [] then []
    else MergeJoin(FrivenName, MysqlName, frivens, mysqlFrom(FrivenName(frivens[0])))
  }

  /** `combine` for each group in turn; an exception ends the meld. */
  function CombineEach(s: EngineState, reportDate: CalendarDate,
                       groups: seq<Group<FrivenUser, MysqlUser>>): (EngineState, Option<CombineError>)
    decreases |groups|
  {
    if groups == [] then (s, None)
    else
      var (after, err) := Combined(s, reportDate, groups[0].frivens, groups[0].mysqls);
      if err.Some? then (after, err) else CombineEach(after, reportDate, groups[1..])
  }

  lemma CombineEachCons(s: EngineState, reportDate: CalendarDate,
                        g: Group<FrivenUser, MysqlUser>, rest: seq<Group<FrivenUser, MysqlUser>>)
    ensures var (after, err) := Combined(s, reportDate, g.frivens, g.mysqls);
      CombineEach(s, reportDate, [g] + rest)
      == if err.Some? then (after, err) else CombineEach(after, reportDate, rest)
  {
    assert ([g] + rest)[0] == g && ([g] + rest)[1..] == rest;
  }

  /** Every group `meld` forms has users on both sides, so `combine` never
      meets an empty Friendly Vendor list there, and every user in it has
      the group's lastname. */
  lemma MeldedGroupsMatched(frivens: seq<FrivenUser>, mysqlFrom: string -> seq<MysqlUser>)
    ensures frivens != [] ==>
      AllMatched(FrivenName, MysqlName, frivens, mysqlFrom(FrivenName(frivens[0])), Melded(frivens, mysqlFrom))
    ensures forall k :: 0 <= k < |Melded(frivens, mysqlFrom)| ==>
      Melded(frivens, mysqlFrom)[k].frivens != [] && Melded(frivens, mysqlFrom)[k].mysqls != []
  {
    if frivens != [] {
      var mysqls := mysqlFrom(FrivenName(frivens[0]));
      JoinGroupsMatched(FrivenName, MysqlName, frivens, mysqls);
      assert AllMatched(FrivenName, MysqlName, frivens, mysqls, Melded(frivens, mysqlFrom));
    }
  }

  /** Every MySQL lastname is already in the form the melder compares:
      lower-case with no surrounding whitespace. */
  predicate KeyedLastnames(table: seq<MysqlUser>) {
    forall k :: 0 <= k < |table| ==> MysqlName(table[k]) == table[k].lastname
  }

  /** The loader's `order by lastname, id` is the order the merge join asks
      for, once lastnames are in key form. */
  lemma LoaderOrderSorted(table: seq<MysqlUser>)
    requires KeyedLastnames(table) && MysqlLoading.Ordered(table)
    ensures SortedBy(MysqlName, table)
  {
    forall i, j | 0 <= i < j < |table| ensures !Less(MysqlName(table[j]), MysqlName(table[i])) {
      var a, b := table[i].lastname, table[j].lastname;
      assert MysqlLoading.Precedes(MysqlLoading.CursorOf(table[i]), MysqlLoading.CursorOf(table[j]));
      if Less(a, b) {
        LessAsymmetric(a, b);
      } else {
        LessIrreflexive(a);
      }
    }
  }

  /** The MySQL loader started, as `meld` starts it, at the first Friendly
      Vendor user's key and run until its loop ends, feeds the merge join a
      stream on which no match is lost and the groups ascend. */
  lemma LoadedMeld(frivens: seq<FrivenUser>, table: seq<MysqlUser>, batch: int, rounds: nat, i: nat, j: nat)
    requires SortedBy(FrivenName, frivens) && i < |frivens|
    requires KeyedLastnames(table) && j < |table| && FrivenName(frivens[i]) == MysqlName(table[j])
    requires batch > 0 && MysqlLoading.Ordered(table) && MysqlLoading.DistinctIds(table)
    requires forall r :: r in table ==> r.id > 0
    requires !MysqlLoading.Progressed(table, MysqlLoading.Cursor(FrivenName(frivens[0]), 0), batch, rounds).running
    ensures var mysqls := MysqlLoading.Progressed(table, MysqlLoading.Cursor(FrivenName(frivens[0]), 0), batch, rounds).pushed;
      Together(MergeJoin(FrivenName, MysqlName, frivens, mysqls), frivens[i], table[j])
      && Ascending(FrivenName, MergeJoin(FrivenName, MysqlName, frivens, mysqls))
  {
    var initial := FrivenName(frivens[0]);
    var mysqls := MysqlLoading.Progressed(table, MysqlLoading.Cursor(initial, 0), batch, rounds).pushed;
    MysqlLoading.LoaderDeliversAll(table, initial, batch, rounds);
    assert KeyedLastnames(mysqls) by {
      forall k | 0 <= k < |mysqls| ensures MysqlName(mysqls[k]) == mysqls[k].lastname {
        assert mysqls[k] in table;
      }
    }
    LoaderOrderSorted(mysqls);
    SortedFirst(FrivenName, frivens, i);
    Trichotomy(initial, table[j].lastname);
    assert table[j] in table;
    assert table[j] in mysqls;
    var j' :| 0 <= j' < |mysqls| && mysqls[j'] == table[j];
    JoinFindsEveryMatch(FrivenName, MysqlName, frivens, mysqls, i, j');
    JoinAscending(FrivenName, MysqlName, frivens, mysqls);
  }

  /** Why `meld` returned. */
  datatype MeldEnding =
    | NoApiData                    // the first Friendly Vendor `get` timed out
    | NoMysqlData                  // the first MySQL `get` timed out
    | RanOut                       // a later `get` timed out; both loaders are stopped
    | CombineRaised(error: CombineError)

  function Raised(e: MeldEnding): Option<CombineError> {
    if e.CombineRaised? then Some(e.error) else None
  }

  class Melder {
    const engine: CombiningEngine

    /** `Melder(friven_loader, mysql_loader, combining_engine, ...)`; the
        loaders and their timeouts are the streams `meld` is given. */
    constructor (combiningEngine: CombiningEngine)
      ensures engine == combiningEngine
    {
      engine := combiningEngine;
    }

    /** `meld()` over the Friendly Vendor stream `frivens` and the MySQL
        stream `mysqlFrom(start)` of a loader started at lastname `start`:
        the engine sees exactly the groups of `Melded`, in order, until one
        `combine` raises. */
    method Meld(frivens: seq<FrivenUser>, mysqlFrom: string -> seq<MysqlUser>) returns (ending: MeldEnding)
      requires engine.Valid()
      modifies engine.metrics, engine.writer
      ensures engine.Valid()
      ensures ending == NoApiData <==> frivens == []
      ensures ending == NoMysqlData <==> frivens != [] && mysqlFrom(FrivenName(frivens[0])) == []
      ensures (engine.View(), Raised(ending)) == CombineEach(old(engine.View()), engine.reportDate, Melded(frivens, mysqlFrom))
    {
      if frivens == [] {
        return NoApiData;
      }
      var mysqls := mysqlFrom(FrivenName(frivens[0]));
      if mysqls == [] {
        return NoMysqlData;
      }
      var err := SendGroups(FrivenName, MysqlName, frivens, mysqls);
      return if err.Some? then CombineRaised(err.value) else RanOut;
    }

    /** `_combine_users(friven_list, mysql_list)` for the next group `g` of
        the merge, `rest` being the groups after it. */
    method SendGroup(g: Group<FrivenUser, MysqlUser>, ghost rest: seq<Group<FrivenUser, MysqlUser>>)
      returns (err: Option<CombineError>)
      requires engine.Valid()
      modifies engine.metrics, engine.writer
      ensures engine.Valid()
      ensures err.Some? ==> (engine.View(), err) == CombineEach(old(engine.View()), engine.reportDate, [g] + rest)
      ensures err.None? ==>
        CombineEach(old(engine.View()), engine.reportDate, [g] + rest)
        == CombineEach(engine.View(), engine.reportDate, rest)
    {
      CombineEachCons(engine.View(), engine.reportDate, g, rest);
      err := engine.Combine(g.frivens, g.mysqls);
    }

    /** The `while True` loop of `meld` on the two streams, for any way of
        keying their users: each group of the merge is combined, in order,
        until a `combine` raises or a queue times out. */
    method SendGroups(fkey: FrivenUser -> string, mkey: MysqlUser -> string,
                      frivens: seq<FrivenUser>, mysqls: seq<MysqlUser>)
      returns (err: Option<CombineError>)
      requires engine.Valid()
      modifies engine.metrics, engine.writer
      ensures engine.Valid()
      ensures (engine.View(), err) == CombineEach(old(engine.View()), engine.reportDate, MergeJoin(fkey, mkey, frivens, mysqls))
    {
      ghost var start := engine.View();
      assert frivens[0..] == frivens && mysqls[0..] == mysqls;
      var fc, mc := 0, 0;
      while fc < |frivens| && mc < |mysqls|
        invariant fc <= |frivens| && mc <= |mysqls|
        invariant engine.Valid()
        invariant CombineEach(start, engine.reportDate, MergeJoin(fkey, mkey, frivens, mysqls))
               == CombineEach(engine.View(), engine.reportDate, MergeJoin(fkey, mkey, frivens[fc..], mysqls[mc..]))
        decreases |frivens| - fc + |mysqls| - mc
      {
        var group, nextF, nextM := NextGroup(fkey, mkey, frivens, mysqls, fc, mc);
        ghost var todo := MergeJoin(fkey, mkey, frivens[fc..], mysqls[mc..]);
        ghost var rest := MergeJoin(fkey, mkey, frivens[nextF..], mysqls[nextM..]);
        if group.Some? {
          assert todo == [group.value] + rest;
          err := SendGroup(group.value, rest);
          if err.Some? {
            return;
          }
        } else {
          assert todo == rest;
        }
        fc, mc := nextF, nextM;
      }
      assert MergeJoin(fkey, mkey, frivens[fc..], mysqls[mc..]) == [];
      return None;
    }
  }
}
