/** The channel layer's group registry: a map from group name to the set of
    channels currently in that group. Adding creates a group on first use;
    discarding the last channel removes the group. */
module ChannelLayer {
  /** The name of one open connection. */
  type Channel = string

  type Groups = map<string, set<Channel>>

  /** The channels of a group; a group nobody joined has none. */
  function Members(groups: Groups, name: string): set<Channel>
  {
    if name in groups then groups[name] else {}
  }

  /** The registry holds no group without members. */
  ghost predicate NoEmptyGroups(groups: Groups)
  {
    forall name :: name in groups ==> groups[name] != {}
  }

  /** Adds a channel to a group, creating the group if needed. */
  function GroupAdd(groups: Groups, name: string, c: Channel): (r: Groups)
    ensures Members(r, name) == Members(groups, name) + {c}
    ensures forall other :: other != name ==> Members(r, other) == Members(groups, other)
    ensures r.Keys == groups.Keys + {name}
    ensures NoEmptyGroups(groups) ==> NoEmptyGroups(r)
  {
    groups[name := Members(groups, name) + {c}]
  }

  /** Removes a channel from a group; a channel that is not there is ignored,
      and a group left empty is dropped. */
  function GroupDiscard(groups: Groups, name: string, c: Channel): (r: Groups)
    ensures Members(r, name) == Members(groups, name) - {c}
    ensures forall other :: other != name ==> Members(r, other) == Members(groups, other)
    ensures r.Keys <= groups.Keys
    ensures c !in Members(groups, name) ==> r == groups
    ensures NoEmptyGroups(groups) ==> NoEmptyGroups(r)
  {
    if name !in groups || c !in groups[name] then groups
    else
      var rest := groups[name] - {c};
      if rest == {} then groups - {name} else groups[name := rest]
  }

  /** Discarding a channel undoes adding it, provided it was not in the group
      before and the registry held no empty group. */
  lemma DiscardUndoesAdd(groups: Groups, name: string, c: Channel)
    requires NoEmptyGroups(groups) && c !in Members(groups, name)
    ensures GroupDiscard(GroupAdd(groups, name, c), name, c) == groups
  {
    var r := GroupDiscard(GroupAdd(groups, name, c), name, c);
    assert r.Keys == groups.Keys;
    forall k | k in groups
      ensures r[k] == groups[k]
    {
      assert Members(r, k) == Members(groups, k);
    }
  }
}
