/**
 Which campaigns are active, and in what order: the five sources by name, the kill switch and the
 dismissed ids. Models `campaign_source_slices` and `resolve_campaigns` of `config_layers.rs`.
 */
module CampaignOrder {
  import opened Prelude
  import opened Toml
  import opened Layers

  /** The first entry of a source that bears its id. */
  ghost predicate FirstIn(source: seq<Campaign>, e: Campaign) {
    exists i :: IsFirst(source, i) && source[i] == e
  }

  /** `e` is the first entry with its id in the highest source that has one. */
  ghost predicate ComesFromHighest(layers: ConfigLayers, remote: seq<Campaign>, e: Campaign) {
    var own := layers.campaigns;
    if e.id in Ids(own.requirements) then FirstIn(own.requirements, e)
    else if e.id in Ids(remote) then FirstIn(remote, e)
    else if e.id in Ids(own.user) then FirstIn(own.user, e)
    else if e.id in Ids(own.managed) then FirstIn(own.managed, e)
    else FirstIn(own.systemManaged, e)
  }

  lemma {:induction false} UnseenConcat(a: seq<Campaign>, b: seq<Campaign>, seen: set<string>)
    ensures Unseen(a + b, seen) == Unseen(a, seen) + Unseen(b, seen + Ids(a))
    decreases a
  {
    if a == [] {
      assert a + b == b;
      assert seen + Ids(a) == seen;
    } else {
      assert (a + b)[1..] == a[1..] + b;
      assert a == [a[0]] + a[1..];
      assert Ids(a) == {a[0].id} + Ids(a[1..]);
      if a[0].id in seen {
        UnseenConcat(a[1..], b, seen);
        assert seen + Ids(a) == seen + Ids(a[1..]);
      } else {
        UnseenConcat(a[1..], b, seen + {a[0].id});
        assert seen + Ids(a) == seen + {a[0].id} + Ids(a[1..]);
      }
    }
  }

  lemma {:induction false} FilterConcat(a: seq<Campaign>, b: seq<Campaign>, dismissed: set<string>)
    ensures FilterActive(a + b, dismissed) == FilterActive(a, dismissed) + FilterActive(b, dismissed)
  {
    if a == [] {
      assert a + b == b;
    } else {
      assert (a + b)[1..] == a[1..] + b;
      FilterConcat(a[1..], b, dismissed);
    }
  }

  /** What one source adds to those before it. */
  function Part(source: seq<Campaign>, seen: set<string>, dismissed: set<string>): seq<Campaign> {
    FilterActive(Unseen(source, seen), dismissed)
  }

  lemma PartMembers(source: seq<Campaign>, seen: set<string>, dismissed: set<string>, e: Campaign)
    ensures e in Part(source, seen, dismissed) <==> e.id !in seen && e.id !in dismissed && FirstIn(source, e)
    ensures e in Part(source, seen, dismissed) ==> e in source && e.id in Ids(source)
  {
    FilterActiveMembers(Unseen(source, seen), dismissed);
    UnseenSelectsFirst(source, seen, e);
  }

  lemma PartsOf(a: seq<Campaign>, b: seq<Campaign>, seen: set<string>, dismissed: set<string>)
    ensures Part(a + b, seen, dismissed) == Part(a, seen, dismissed) + Part(b, seen + Ids(a), dismissed)
  {
    UnseenConcat(a, b, seen);
    FilterConcat(Unseen(a, seen), Unseen(b, seen + Ids(a)), dismissed);
  }

  /** The campaigns are off by environment variable or by `features.campaigns = false` in the base. */
  predicate SwitchedOff(base: Value, envSwitch: Option<bool>) {
    envSwitch == Some(false) || At(base, ["features", "campaigns"]) == Some(Bool(false))
  }

  lemma FlattenFive(a: seq<Campaign>, b: seq<Campaign>, c: seq<Campaign>, d: seq<Campaign>, e: seq<Campaign>)
    ensures Flatten([a, b, c, d, e]) == a + (b + (c + (d + e)))
  {
    var all := [a, b, c, d, e];
    assert all[1..] == [b, c, d, e] && all[1..][1..] == [c, d, e] && all[1..][1..][1..] == [d, e];
    assert [d, e][1..] == [e] && [e][1..] == [];
    assert Flatten([e]) == e && Flatten([d, e]) == d + e && Flatten([c, d, e]) == c + (d + e);
    assert Flatten([b, c, d, e]) == b + (c + (d + e));
  }

  /** Five sources one after the other. */
  lemma FiveParts(a: seq<Campaign>, b: seq<Campaign>, c: seq<Campaign>, d: seq<Campaign>, e: seq<Campaign>,
                  dismissed: set<string>)
    ensures Part(a + (b + (c + (d + e))), {}, dismissed) ==
            Part(a, {}, dismissed)
            + (Part(b, {} + Ids(a), dismissed)
               + (Part(c, {} + Ids(a) + Ids(b), dismissed)
                  + (Part(d, {} + Ids(a) + Ids(b) + Ids(c), dismissed)
                     + Part(e, {} + Ids(a) + Ids(b) + Ids(c) + Ids(d), dismissed))))
  {
    PartsOf(a, b + (c + (d + e)), {}, dismissed);
    PartsOf(b, c + (d + e), {} + Ids(a), dismissed);
    PartsOf(c, d + e, {} + Ids(a) + Ids(b), dismissed);
    PartsOf(d, e, {} + Ids(a) + Ids(b) + Ids(c), dismissed);
  }

  /**
   The active campaigns are those of the requirements, then the remote ones, then the user's, the managed
   and the system's, each part keeping the order of its source and dropping ids taken by an earlier one.
   */
  lemma ActiveInSourceOrder(layers: ConfigLayers, base: Value, remote: seq<Campaign>, dismissed: set<string>,
                            envSwitch: Option<bool>)
    ensures var own, active := layers.campaigns, ResolveCampaigns(layers, base, remote, dismissed, envSwitch);
            if SwitchedOff(base, envSwitch) then active == []
            else
              active == Part(own.requirements, {}, dismissed)
                        + (Part(remote, {} + Ids(own.requirements), dismissed)
                           + (Part(own.user, {} + Ids(own.requirements) + Ids(remote), dismissed)
                              + (Part(own.managed, {} + Ids(own.requirements) + Ids(remote) + Ids(own.user), dismissed)
                                 + Part(own.systemManaged,
                                        {} + Ids(own.requirements) + Ids(remote) + Ids(own.user) + Ids(own.managed), dismissed))))
  {
    var own := layers.campaigns;
    FlattenFive(own.requirements, remote, own.user, own.managed, own.systemManaged);
    FiveParts(own.requirements, remote, own.user, own.managed, own.systemManaged, dismissed);
  }

  /** A campaign is active iff campaigns are on, its id is not dismissed, and it comes from the highest source with that id. */
  lemma ActiveComesFromHighestSource(layers: ConfigLayers, base: Value, remote: seq<Campaign>, dismissed: set<string>,
                                     envSwitch: Option<bool>, e: Campaign)
    ensures e in ResolveCampaigns(layers, base, remote, dismissed, envSwitch) <==>
            !SwitchedOff(base, envSwitch) && e.id !in dismissed && ComesFromHighest(layers, remote, e)
  {
    var own := layers.campaigns;
    ActiveInSourceOrder(layers, base, remote, dismissed, envSwitch);
    PartMembers(own.requirements, {}, dismissed, e);
    PartMembers(remote, {} + Ids(own.requirements), dismissed, e);
    PartMembers(own.user, {} + Ids(own.requirements) + Ids(remote), dismissed, e);
    PartMembers(own.managed, {} + Ids(own.requirements) + Ids(remote) + Ids(own.user), dismissed, e);
    PartMembers(own.systemManaged, {} + Ids(own.requirements) + Ids(remote) + Ids(own.user) + Ids(own.managed), dismissed, e);
    FirstIsThere(own.requirements, e);
    FirstIsThere(remote, e);
    FirstIsThere(own.user, e);
    FirstIsThere(own.managed, e);
  }

  lemma FirstIsThere(source: seq<Campaign>, e: Campaign)
    ensures FirstIn(source, e) ==> e.id in Ids(source)
  {
    if i :| IsFirst(source, i) && source[i] == e {
      assert source[i] in source;
    }
  }

  /** With the switch off no campaign applies: the effective config is the base. */
  lemma SwitchedOffIsBase(layers: ConfigLayers, remote: seq<Campaign>, dismissed: set<string>, envSwitch: Option<bool>)
    requires SwitchedOff(EffectiveBase(layers), envSwitch)
    ensures Effective(layers, remote, dismissed, envSwitch) == EffectiveBase(layers)
  {
    ActiveInSourceOrder(layers, EffectiveBase(layers), remote, dismissed, envSwitch);
    NoCampaignsIsBase(layers, remote, dismissed, envSwitch);
  }
}
