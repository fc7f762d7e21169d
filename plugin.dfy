/** The plugin object: it holds the live resource map of the service being
    deployed and the CLI options, and prunes the map in place from its
    deploy hook. */
module Plugin {
  import opened Selection

  /** How one `selectResource` promise settles: with the resource object
      it looked at, or rejected (the name was not in the map, so reading
      its `regions` threw). */
  datatype Settled = Resolved(resource: Resource) | Rejected

  /** What the deploy hook returns: `false` when skipped, otherwise the
      values the `Promise.all` over every resource resolves to, in the
      order of the key snapshot. */
  datatype HookResult = Skipped | Ran(values: seq<Resource>)

  /** The keys of a map, each exactly once, in an order the model leaves
      open (`Object.keys`). */
  method Enumerate(keys: set<string>) returns (names: seq<string>)
    ensures forall k :: k in names <==> k in keys
    ensures forall i, j :: 0 <= i < j < |names| ==> names[i] != names[j]
    ensures |names| == |keys|
  {
    names := [];
    var pending := keys;
    while pending != {}
      invariant pending <= keys
      invariant |names| + |pending| == |keys|
      invariant forall k :: k in keys <==> k in pending || k in names
      invariant forall k :: k in names ==> k !in pending
      invariant forall i, j :: 0 <= i < j < |names| ==> names[i] != names[j]
      decreases pending
    {
      var k :| k in pending;
      names := names + [k];
      pending := pending - {k};
    }
  }

  class SelectResource {
    /** `serverless.service.resources.Resources` */
    var resources: map<string, Resource>
    /** the plugin's `options` */
    const options: Options

    constructor (resources: map<string, Resource>, options: Options)
      ensures this.resources == resources && this.options == options
    {
      this.resources := resources;
      this.options := options;
    }

    /** Skip everything under `noDeploy`, otherwise select every resource. */
    method DeployHook() returns (result: HookResult, ghost names: seq<string>)
      modifies this
      ensures options.noDeploy ==> result == Skipped && resources == old(resources)
      ensures !options.noDeploy ==> result.Ran? && resources == Selected(old(resources), options)
      ensures !options.noDeploy ==>
                && (forall k :: k in names <==> k in old(resources))
                && (forall i, j :: 0 <= i < j < |names| ==> names[i] != names[j])
                && |result.values| == |names| == |old(resources)|
                && (forall i :: 0 <= i < |names| ==> result.values[i] == Settle(old(resources)[names[i]], options))
    {
      if options.noDeploy {
        return Skipped, [];
      }
      var values;
      names, values := SelectAllResources();
      result := Ran(values);
    }

    /** Select every resource named in a snapshot of the keys taken before
        any deletion; `values[i]` is what the promise for `names[i]`
        resolves to. */
    method SelectAllResources() returns (names: seq<string>, values: seq<Resource>)
      modifies this
      ensures resources == Selected(old(resources), options)
      ensures forall k :: k in names <==> k in old(resources)
      ensures forall i, j :: 0 <= i < j < |names| ==> names[i] != names[j]
      ensures |values| == |names| == |old(resources)|
      ensures forall i :: 0 <= i < |names| ==>
                values[i] == Settle(old(resources)[names[i]], options)
    {
      ghost var original := resources;
      names := Enumerate(resources.Keys);
      values := [];
      assert forall j :: 0 <= j < |names| ==> names[j] in original;
      for i := 0 to |names|
        invariant resources == SelectKeys(original, names[..i], options)
        invariant values == Resolutions(original, names[..i], options)
      {
        SelectKeysStep(original, names, i, options);
        var settled := SelectResource(names[i]);
        values := values + [settled.resource];
      }
      assert names[..|names|] == names;
      assert resources == Selected(original, options) by {
        SelectKeysComplete(original, names, options);
      }
    }

    /** Select one resource: delete it when its region or its stage list
        excludes the requested one, then strip `regions` and `stages` from
        it if it is still there. */
    method SelectResource(name: string) returns (settled: Settled)
      modifies this
      ensures resources == SelectOne(old(resources), name, options)
      ensures name !in old(resources) ==> settled == Rejected
      ensures name in old(resources) ==> settled == Resolved(Settle(old(resources)[name], options))
    {
      if name !in resources {
        return Rejected;
      }
      var resourceObject := resources[name];
      var regions := Restriction(resourceObject.regions);
      var stages := Restriction(resourceObject.stages);

      if regions.Some? && options.region.Some? && IndexOf(regions.value, options.region.value) == -1 {
        resources := resources - {name};
      }
      if stages.Some? && options.stage.Some? && IndexOf(stages.value, options.stage.value) == -1 {
        resources := resources - {name};
      }

      if name in resources {
        resources := resources[name := resources[name].(regions := Absent, stages := Absent)];
        settled := Resolved(resources[name]);
      } else {
        settled := Resolved(resourceObject);
      }
    }
  }
}
