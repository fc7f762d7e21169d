# serverless-plugin-select-resource: resource selection filter

A model of the Serverless Framework plugin that decides which entries of
`service.resources.Resources` are deployed. Each resource definition may
carry a `regions` and a `stages` list. When the plugin's deploy hook runs
without `--noDeploy`, every resource whose non-empty `regions` list does not
contain the requested region (when a region is requested), or whose non-empty
`stages` list does not contain the requested stage (when a stage is
requested), is deleted from the map; every surviving
resource has its `regions` and `stages` fields cleared so that they do not
reach the generated CloudFormation template.

- `selection.dfy`, module `Selection`: the data model (`Field`, `Resource`,
  `Options`), the keep/drop rule `Keep` (both `Admits` checks pass), the
  effect of one selection step `SelectOne`, the full pass `Selected`, and the
  lemmas about them: unrestricted fields and undefined options never filter,
  survivors keep every other field, the pass is idempotent, and running the
  steps over any listing of the keys performs the full pass.
- `plugin.dfy`, module `Plugin`: the plugin object as a class
  `SelectResource` whose mutable field `resources` is the live resource map.
  `DeployHook`, `SelectAllResources` and `SelectResource` change that map in
  place, step by step as the JavaScript does (two separate deletes, then
  clearing the fields), and are proved against the functions of `Selection`.

A field holding a non-array value, an empty array, or nothing counts as
unrestricted. The region and stage options are `Option<string>`: `None` is
JavaScript `undefined`. List membership is `Array.prototype.indexOf` with
strict string equality (`Selection.IndexOf`), related to plain sequence
membership by its contract.

## Model

| member | source | states |
|---|---|---|
| `Selection.IndexOf` | src/index.js:107 | `indexOf` is -1 exactly when the value is not in the list; otherwise it is the first position holding the value |
| `Selection.Restriction` | src/index.js:94-101 | a field restricts exactly when it is a non-empty array, and then the restriction is that array |
| `Selection.Admits` | src/index.js:104-119 | one dimension lets a resource through exactly when it is not the case that the field is a non-empty array, the option is defined, and `indexOf` returns -1 |
| `Selection.Keep` | src/index.js:104-119 | a resource is deleted exactly when the region test at lines 104-110 or the stage test at lines 113-119 fires; it is kept when both checks pass |
| `Selection.Cleared` | src/index.js:121-127 | a survivor has `regions` and `stages` cleared and every other property unchanged |
| `Selection.SelectOne` | src/index.js:87-131 | selecting `name` changes no other key or value; `name` survives exactly when it was present and `Keep` holds; a survivor is the cleared original |
| `Selection.Selected` | src/index.js:64-75 | after a full pass a key is present exactly when it was present and its resource passes `Keep`; every survivor has no `regions`/`stages` and keeps its other properties |
| `Selection.UnrestrictedAdmits` | src/index.js:94-101 | an absent, non-array or empty `regions`/`stages` value never causes a deletion, whatever the options |
| `Selection.UndefinedAdmits` | src/index.js:104-119 | an undefined `options.region` or `options.stage` never filters on that dimension |
| `Selection.RestrictedRejects` | src/index.js:104-119 | a non-empty list rejects exactly when the option is defined and `indexOf` finds it nowhere in the list |
| `Selection.ClearedKept` | src/index.js:121-127 | a cleared resource passes `Keep` under every options |
| `Selection.SelectOneIdempotent` | src/index.js:87-131 | selecting the same resource a second time changes nothing |
| `Selection.SelectOneExtends` | src/index.js:71-73 | one more selection step extends the set of processed names by that name |
| `Selection.SelectKeys` | src/index.js:71-73 | running the steps for a list of names one after the other never adds a key |
| `Selection.SelectKeysStep` | src/index.js:71-73 | over distinct names, the next name still holds its original resource, and one more step is one more `SelectOne` and one more resolved value |
| `Selection.Resolutions` | src/index.js:71-74 | the array `Promise.all` resolves to has one value per name, in order, each the value that name's step resolves with |
| `Selection.SelectKeysSelectsListed` | src/index.js:66-74 | selecting the names of any list one after the other, in any order and with repetitions, selects exactly the listed names and leaves the others untouched |
| `Selection.SelectKeysUntouched` | src/index.js:66-74 | a key not yet reached in the snapshot still holds its original resource, since each step touches only its own key |
| `Selection.Settle` | src/index.js:122-130 | the value a step resolves with is the cleared resource when it survived and the unchanged object when it was deleted |
| `Selection.SelectKeysComplete` | src/index.js:66-74 | visiting every key of the map performs the full pass `Selected`, whatever the order of the key snapshot |
| `Selection.SelectedIdempotent` | src/index.js:94-127 | a second pass with the same options deletes nothing more and changes no survivor |
| `Selection.UndefinedContextKeepsAll` | src/index.js:104-119 | with neither region nor stage given, no resource is removed |
| `Selection.RegionScenario` | src/index.js:104-127 | resources restricted to `us-east-1` and `eu-west-1`, deployed to `us-east-1`: only the first survives, stripped of `regions` |
| `Selection.RegionAndStageScenario` | src/index.js:104-119 | a resource whose stage matches but whose region does not is removed |
| `Plugin.Enumerate` | src/index.js:66-68 | the key snapshot lists every key of the map exactly once |
| `Plugin.SelectResource.constructor` | src/index.js:21-24 | the plugin holds the service's resource map and the options |
| `Plugin.SelectResource.DeployHook` | src/index.js:41-54 | with `noDeploy` the hook returns `false` and the map is unchanged; otherwise the map becomes the full pass `Selected` of the old map, and the hook's result holds one resolved value per old key, the i-th being the `Settle` of the resource under the i-th name of the key snapshot |
| `Plugin.SelectResource.SelectAllResources` | src/index.js:64-75 | every key present at the call is processed once; the map becomes `Selected` of the old map; there is one resolved value per old key, each the resource object, cleared when it survived |
| `Plugin.SelectResource.SelectResource` | src/index.js:87-131 | the two deletes and the clearing leave the map as `SelectOne` of the old map (a second delete of a deleted key is harmless); a name with no entry at all rejects and changes nothing; the resolved value is the resource object after the step |

## Left out

- Hook registration in the constructor (`after:package:initialize`, `before:deploy:resource:initialize`) is framework wiring; the constructor only stores the resource map and the options.
- The `serverless.cli.log` start line is output only and is not modelled.
- Promises: the work inside each promise is synchronous, so `SelectResource` is a plain method whose outcome is `Settled`; a rejection (the name has no value at all, so reading `regions` of `undefined` throws) is `Rejected`. `Promise.all` becomes the sequence of resolved values.
- `Plugin.Enumerate`: `Object.keys` lists integer-like keys in ascending numeric order, then the other keys in insertion order; the model leaves the order open, and `Selection.SelectKeysComplete` shows the result does not depend on it.
- `Plugin.SelectResource.SelectResource`: the map lookup ignores the prototype chain, so a name missing from the map but inherited from `Object.prototype` (such as `constructor` or `toString`) resolves in JavaScript while the model rejects it; the map's own entries are unchanged either way (the source writes `regions`/`stages` onto the inherited object), and `selectAllResources` only passes own keys.
- A missing `service.resources.Resources` (for example a `resources:` block holding only `Outputs`) is not modelled: `Object.keys` throws and `deployHook` fails; the model always holds a map.
- A cleared field is the `Absent` case; JavaScript's distinction between a deleted key and a key set to `undefined` by `Object.assign` is not modelled.
- Resource values that are not objects (null, strings, numbers) are not modelled; every resource is a record.
- List elements are strings and the region and stage options are strings or undefined; a `null` option or non-string list elements are not modelled.
- `noDeploy` is a boolean; JavaScript truthiness of other values is not modelled.
- Pruning of IAM policy-statement `Resource` references when a resource is removed, and per-removal log lines, are not in `src/index.js` and are not modelled.
