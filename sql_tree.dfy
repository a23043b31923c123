/**
 * What a composite compiles to (sql.go:224-256): its children compiled in
 * order with the first failure ending the translation, their texts joined
 * by the glue and parenthesised when there are several, and their values
 * concatenated in the same order; and what the whitelist guarantees for a
 * whole tree.
 */
module SqlTree {
  import opened Wrappers
  import opened Text
  import opened Condition
  import opened Sql

  /** The reference reading of a list of child results, from the front:
      the first failure, or all texts and the concatenated values. */
  function Collect(rs: seq<Result<Fragment, Error>>): Result<(seq<string>, seq<Value>), Error>
  {
    if rs == [] then Ok(([], []))
    else match rs[0]
      case Err(e) => Err(e)
      case Ok(frag) =>
        match Collect(rs[1..])
        case Err(e) => Err(e)
        case Ok(rest) => Ok(([frag.sql] + rest.0, frag.values + rest.1))
  }

  /** The reference reading succeeds exactly when every result does, and
      then keeps every text in order; otherwise it reports the first
      failure. */
  lemma {:induction false} CollectOutcome(rs: seq<Result<Fragment, Error>>)
    ensures var r := Collect(rs);
      && (r.Ok? <==> forall i :: 0 <= i < |rs| ==> rs[i].Ok?)
      && (r.Ok? ==> |r.value.0| == |rs| && forall i :: 0 <= i < |rs| ==> r.value.0[i] == rs[i].value.sql)
      && (r.Err? ==> exists i :: 0 <= i < |rs| && rs[i] == Err(r.error) && forall j :: 0 <= j < i ==> rs[j].Ok?)
    decreases |rs|
  {
    if rs != [] {
      var tail := rs[1..];
      CollectOutcome(tail);
      assert forall i :: 1 <= i < |rs| ==> rs[i] == tail[i - 1];
      if rs[0].Ok? && Collect(tail).Err? {
        var i :| 0 <= i < |tail| && tail[i] == Err(Collect(tail).error) && forall j :: 0 <= j < i ==> tail[j].Ok?;
        assert rs[i + 1] == Err(Collect(rs).error);
      }
      if rs[0].Err? {
        assert rs[0] == Err(Collect(rs).error);
      }
    }
  }

  /** The results of the first `n` children, each compiled on its own. */
  function KidResults(f: Filter, n: nat, config: Option<SqlConfig>, db: DatabaseType): (rs: seq<Result<Fragment, Error>>)
    requires f.kids.Slice? && n <= |f.kids.list|
    ensures |rs| == n && forall i :: 0 <= i < n ==> rs[i] == Compile(f.kids.list[i], config, db)
    decreases n
  {
    if n == 0 then [] else KidResults(f, n - 1, config, db) + [Compile(f.kids.list[n - 1], config, db)]
  }

  /** Collecting one more result at the back. */
  lemma {:induction false} CollectSnoc(rs: seq<Result<Fragment, Error>>, r: Result<Fragment, Error>)
    ensures Collect(rs + [r]) == AddKid(Collect(rs), r)
    decreases |rs|
  {
    if rs == [] {
      assert rs + [r] == [r] && [r][1..] == [];
      assert Collect([r][1..]) == Ok(([], []));
      if r.Ok? {
        var frag := r.value;
        assert [frag.sql] + [] == [] + [frag.sql] && frag.values + [] == [] + frag.values;
      }
    } else {
      assert (rs + [r])[0] == rs[0] && (rs + [r])[1..] == rs[1..] + [r];
      CollectSnoc(rs[1..], r);
      if rs[0].Ok? && Collect(rs[1..]).Ok? && r.Ok? {
        var frag, acc := rs[0].value, Collect(rs[1..]).value;
        assert [frag.sql] + acc.0 + [r.value.sql] == [frag.sql] + (acc.0 + [r.value.sql]);
        assert frag.values + acc.1 + r.value.values == frag.values + (acc.1 + r.value.values);
      }
    }
  }

  /** One more child takes the loop and the reference reading one step
      each, by the same child result. */
  lemma KidsCollectStep(f: Filter, n: nat, config: Option<SqlConfig>, db: DatabaseType)
    requires f.kids.Slice? && 0 < n <= |f.kids.list|
    ensures var r := Compile(f.kids.list[n - 1], config, db);
      && CompileKids(f, n, config, db) == AddKid(CompileKids(f, n - 1, config, db), r)
      && Collect(KidResults(f, n, config, db)) == AddKid(Collect(KidResults(f, n - 1, config, db)), r)
  {
    var rs, r := KidResults(f, n - 1, config, db), Compile(f.kids.list[n - 1], config, db);
    CompileKidsStep(f, n, config, db);
    CollectSnoc(rs, r);
  }

  /** The translation's left-to-right loop over the children agrees with
      the reference reading of their results. */
  lemma {:induction false} KidsCollect(f: Filter, n: nat, config: Option<SqlConfig>, db: DatabaseType)
    requires f.kids.Slice? && n <= |f.kids.list|
    ensures CompileKids(f, n, config, db) == Collect(KidResults(f, n, config, db))
    decreases n
  {
    if n == 0 {
      KidsCollectNone(f, config, db);
    } else {
      KidsCollect(f, n - 1, config, db);
      KidsCollectStep(f, n, config, db);
    }
  }

  lemma KidsCollectNone(f: Filter, config: Option<SqlConfig>, db: DatabaseType)
    requires f.kids.Slice?
    ensures CompileKids(f, 0, config, db) == Collect(KidResults(f, 0, config, db))
  {
    var none := KidResults(f, 0, config, db);
    assert none == [];
    assert Collect(none) == Ok(([], []));
  }

  /** The values of children that all compile, first child first. */
  function KidValues(kids: seq<Filter>, config: Option<SqlConfig>, db: DatabaseType): seq<Value>
    requires forall i :: 0 <= i < |kids| ==> Compile(kids[i], config, db).Ok?
    decreases |kids|
  {
    if kids == [] then [] else Compile(kids[0], config, db).value.values + KidValues(kids[1..], config, db)
  }

  /** The reference reading of successful children binds their values in
      order. */
  lemma {:induction false} CollectValues(rs: seq<Result<Fragment, Error>>, kids: seq<Filter>, config: Option<SqlConfig>, db: DatabaseType)
    requires |rs| == |kids| && forall i :: 0 <= i < |rs| ==> rs[i] == Compile(kids[i], config, db)
    requires forall i :: 0 <= i < |kids| ==> Compile(kids[i], config, db).Ok?
    ensures Collect(rs).Ok? && Collect(rs).value.1 == KidValues(kids, config, db)
    decreases |rs|
  {
    if rs != [] {
      assert forall i :: 0 <= i < |rs| - 1 ==> rs[1..][i] == Compile(kids[1..][i], config, db);
      CollectValues(rs[1..], kids[1..], config, db);
    }
  }

  /** A composite succeeds exactly when every child does; it then binds the
      children's values in order. Otherwise it fails with the error of the
      first child that fails, every child before it having succeeded. */
  lemma CompositeOutcome(f: Filter, config: Option<SqlConfig>, db: DatabaseType)
    requires f.kids.Slice?
    ensures var kids := f.kids.list;
      && (Compile(f, config, db).Ok? <==> forall i :: 0 <= i < |kids| ==> Compile(kids[i], config, db).Ok?)
      && (Compile(f, config, db).Err? ==>
            exists i :: 0 <= i < |kids| && Compile(kids[i], config, db) == Err(Compile(f, config, db).error)
                        && forall j :: 0 <= j < i ==> Compile(kids[j], config, db).Ok?)
    ensures Compile(f, config, db).Ok? ==> Compile(f, config, db).value.values == KidValues(f.kids.list, config, db)
  {
    var kids := f.kids.list;
    KidsCollect(f, |kids|, config, db);
    CompositeUnfold(f, config, db);
    var rs := KidResults(f, |kids|, config, db);
    CollectOutcome(rs);
    assert forall i :: 0 <= i < |kids| ==> rs[i] == Compile(kids[i], config, db);
    if Compile(f, config, db).Ok? {
      CollectValues(rs, kids, config, db);
    }
  }

  /** The texts of children that all compile, in order. */
  lemma KidTexts(f: Filter, config: Option<SqlConfig>, db: DatabaseType)
    requires f.kids.Slice?
    requires forall i :: 0 <= i < |f.kids.list| ==> Compile(f.kids.list[i], config, db).Ok?
    ensures var kids := f.kids.list;
      && CompileKids(f, |kids|, config, db).Ok?
      && CompileKids(f, |kids|, config, db).value.0 == seq(|kids|, i requires 0 <= i < |kids| => Compile(kids[i], config, db).value.sql)
  {
    var kids := f.kids.list;
    KidsCollect(f, |kids|, config, db);
    var rs := KidResults(f, |kids|, config, db);
    CollectOutcome(rs);
    assert forall i :: 0 <= i < |kids| ==> rs[i] == Compile(kids[i], config, db);
    match Collect(rs)
    case Ok(acc) =>
      assert acc.0 == seq(|kids|, i requires 0 <= i < |kids| => Compile(kids[i], config, db).value.sql);
  }

  /** Under MySQL a successful composite is the children's texts joined by
      the glue, in parentheses when there are several. */
  lemma MySqlComposite(f: Filter, config: Option<SqlConfig>)
    requires f.kids.Slice?
    requires forall i :: 0 <= i < |f.kids.list| ==> Compile(f.kids.list[i], config, MySql).Ok?
    ensures var kids := f.kids.list;
      Compile(f, config, MySql).Ok? && Compile(f, config, MySql).value.sql ==
        Enclose(Join(seq(|kids|, i requires 0 <= i < |kids| => Compile(kids[i], config, MySql).value.sql), GlueText(f.glue)), |kids|)
  {
    KidTexts(f, config, MySql);
    CompositeUnfold(f, config, MySql);
  }

  /** Under MySQL a composite of one child is that child, whatever its glue. */
  lemma SingleKidIsTransparent(f: Filter, config: Option<SqlConfig>)
    requires f.kids.Slice? && |f.kids.list| == 1
    ensures Compile(f, config, MySql) == Compile(f.kids.list[0], config, MySql)
  {
    var k := f.kids.list[0];
    assert CompileKids(f, 0, config, MySql) == Ok(([], []));
    if Compile(k, config, MySql).Ok? {
      var frag := Compile(k, config, MySql).value;
      assert CompileKids(f, 1, config, MySql) == Ok(([] + [frag.sql], [] + frag.values));
      assert [] + frag.values == frag.values;
    }
  }

  /** A composite without children compiles to no text and no values on
      every database, even one the leaves would refuse. */
  lemma EmptyComposite(f: Filter, config: Option<SqlConfig>, db: DatabaseType)
    requires f.kids == Slice([])
    ensures Compile(f, config, db) == Ok(Fragment("", []))
  {
    assert !ContainsText("", Marker);
  }

  /** Every leaf of the tree is admitted by the whitelist. */
  predicate AllLeavesAllowed(f: Filter, config: Option<SqlConfig>)
    decreases f
  {
    match f.kids
    case Nil => Allowed(config, f.field)
    case Slice(kids) => forall i :: 0 <= i < |kids| ==> AllLeavesAllowed(kids[i], config)
  }

  /** A tree that compiles names only whitelisted fields in its leaves. */
  lemma {:induction false} CompiledLeavesAreAllowed(f: Filter, config: Option<SqlConfig>, db: DatabaseType)
    requires Compile(f, config, db).Ok?
    ensures AllLeavesAllowed(f, config)
    decreases f
  {
    match f.kids
    case Nil =>
    case Slice(kids) =>
      CompositeOutcome(f, config, db);
      forall i | 0 <= i < |kids|
        ensures AllLeavesAllowed(kids[i], config)
      {
        KidSmaller(f, i);
        CompiledLeavesAreAllowed(kids[i], config, db);
      }
  }

  /** A whitelist that admits every leaf of the tree changes nothing: the
      tree compiles as with no whitelist at all. */
  lemma {:induction false} WhitelistAdmittingAllLeaves(f: Filter, c: SqlConfig, w: map<string, bool>, db: DatabaseType)
    requires AllLeavesAllowed(f, Some(c.(whitelist := Some(w))))
    ensures Compile(f, Some(c.(whitelist := Some(w))), db) == Compile(f, Some(c.(whitelist := None)), db)
    decreases f
  {
    var listed, open := Some(c.(whitelist := Some(w))), Some(c.(whitelist := None));
    match f.kids
    case Nil =>
    case Slice(kids) =>
      forall i | 0 <= i < |kids|
        ensures Compile(kids[i], listed, db) == Compile(kids[i], open, db)
      {
        KidSmaller(f, i);
        WhitelistAdmittingAllLeaves(kids[i], c, w, db);
      }
      KidsCollect(f, |kids|, listed, db);
      KidsCollect(f, |kids|, open, db);
      assert KidResults(f, |kids|, listed, db) == KidResults(f, |kids|, open, db);
  }
}
