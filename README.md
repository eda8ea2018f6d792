# Long-term memory store — a Dafny model

This project models the long-term memory store of `udaplay`
(`udaplay/lib/long_memory.py`): a class, `LongTermMemory`, that keeps memory
fragments (text tagged with an owner, a namespace and a timestamp) in one
collection of a vector engine and finds the fragments most similar to a query,
restricted to one owner and one namespace and optionally to a time window.

What the store itself decides, and what is modelled and proved here:

- **Registration** builds the metadata `{owner, namespace, timestamp}` from the
  fragment, updates it with the caller's metadata when that is given and
  non-empty, and appends one document. The update comes last, so a caller key
  named `owner`, `namespace` or `timestamp` replaces the fragment's value.
- **Filter construction** builds the conjunctive where-predicate
  `{"$and": [...]}`: namespace equality, owner equality, then
  `timestamp > greater_than_value` and `timestamp < lower_than_value`, each only
  when a timestamp filter is given and the bound is truthy (so `None` and `0`
  are both "no bound"). The predicate is a datatype (`Filter.Cond`) with an
  evaluation function (`Filter.Holds`) over a metadata mapping, and
  `Filter.WhereForMeaning` proves that the built predicate holds exactly of the
  metadata in the requested namespace, of the requested owner and inside the
  window.
- **Result reconstruction** reads the first inner list of `documents`,
  `metadatas` and `distances` (a missing key reads as `[[]]`, so as an empty
  list), pairs documents with metadata as `zip` does, rebuilds one fragment per
  pair (namespace `"default"` when absent, owner and timestamp `None` when
  absent) and passes the distances through unchanged.
- **Namespace listing** projects the namespace of every stored document, in
  order, one per document.

The backing collection is the field `records: seq<Document>` of the class.
The engine's nearest-neighbour query is the parameter `query` of `Search`, a
function from the query text, the limit and the where-predicate to the engine's
answer. What the engine is assumed to do is the predicate
`LongMemory.EngineHonours`: one inner list per key, index-aligned, at most
`limit` results, each a stored document whose metadata satisfies the
where-predicate. The store does not check this; the isolation, scoping and
time-window guarantees of the class docstring (lines 51-54) are proved under
that assumption (`LongMemory.HonouredSearchInScope`, and the second
postcondition of `Search`).

Metadata values are dynamically typed in the source, so the model uses
`Value = Str | Int | Null` (`Null` is Python's `None`), and a fragment's owner,
namespace and timestamp are `Value`s: reconstruction reads them with `get`,
which yields `None` for a missing key, and caller metadata may give them any
value.

Caller metadata is merged with `dict.update` after `owner`, `namespace` and
`timestamp` are written, so a caller key of the same name replaces the
fragment's value (`Metadata.MergedMetadata`, `Metadata.CallerOverridesOwner`).

Where the docstrings and the code differ, the model follows the code:

- The docstring of `get_namespaces` (line 69) says "unique"; the code returns one
  namespace per stored document, duplicates included
  (`LongMemory.LongTermMemory.GetNamespaces`, `LongMemory.DuplicateNamespaces`).

Modules: `Wrappers` (`wrappers.dfy`: `Option`, `Result`), `Metadata`
(`metadata.dfy`: values, fragments, documents, the merge), `Filter`
(`filter.dfy`: conditions, their semantics, the filter builder) and
`LongMemory` (`long_memory.dfy`: the engine's answer, reconstruction, the
engine contract and the class).

## Model

| member | source | states |
|---|---|---|
| `Metadata.FragmentMetadata` | udaplay/lib/long_memory.py:87-91 | the metadata built from a fragment has exactly the keys owner, namespace and timestamp, and rebuilding a fragment from it gives the fragment back |
| `Metadata.FragmentOf` | udaplay/lib/long_memory.py:159-164 | a rebuilt fragment keeps the document's content; each of owner, namespace and timestamp present in the metadata is taken as stored; a missing namespace reads as "default", a missing owner or timestamp as None |
| `Metadata.MergedMetadata` | udaplay/lib/long_memory.py:87-93 | the merged keys are exactly owner, namespace, timestamp and the caller's keys; every caller key keeps the caller's value, reserved ones included; a reserved key the caller does not give keeps the fragment's value |
| `Metadata.MergedWithoutExtra` | udaplay/lib/long_memory.py:92-93 | with no caller metadata or an empty mapping the record is exactly the fragment's three fields |
| `Metadata.CallerOverridesOwner` | udaplay/lib/long_memory.py:87-93 | a caller `owner` key replaces the fragment's owner in what is stored and read back |
| `Metadata.RoundTrip` | udaplay/lib/long_memory.py:159-164 | rebuilding a fragment from the metadata registration stored for it gives the fragment back, when caller metadata leaves the reserved keys alone |
| `Filter.HoldsConcat` | udaplay/lib/long_memory.py:128-133 | the "$and" list holds of a concatenation exactly when it holds of both parts |
| `Filter.HoldsEvery` | udaplay/lib/long_memory.py:128-133 | the "$and" list holds exactly when every one of its conditions holds |
| `Filter.WhereFor` | udaplay/lib/long_memory.py:128-151 | the filter has 2 to 4 conditions, starting with namespace equality then owner equality |
| `Filter.WhereForShape` | udaplay/lib/long_memory.py:135-151 | the length is 2 plus the number of applied bounds; a `$gt` condition is present if and only if the filter is given with a truthy lower bound, a `$lt` if and only if with a truthy upper bound; `$gt` comes third and `$lt` last |
| `Filter.ZeroBoundsAreAbsent` | udaplay/lib/long_memory.py:135-151 | `TimestampFilter(0, 0)`, `TimestampFilter()` and no filter all build the same two-condition filter |
| `Filter.WhereForMeaning` | udaplay/lib/long_memory.py:128-151 | the built filter holds of a metadata mapping if and only if its namespace and owner equal the requested ones and its timestamp is an integer strictly above every applied lower bound and strictly below every applied upper bound |
| `Filter.ZeroLowerBoundKeepsEarlierTimes` | udaplay/lib/long_memory.py:136-143 | a lower bound of 0 is dropped, so a timestamp of -5 passes it |
| `Filter.WindowKeepsMiddle` | udaplay/lib/long_memory.py:135-151 | of timestamps 100, 200 and 300, bounds 150 and 250 admit only 200 |
| `LongMemory.FirstList` | udaplay/lib/long_memory.py:156-157 | a missing key reads as an empty list; a present outer list yields its first inner list, and an empty outer list has none |
| `LongMemory.Rebuild` | udaplay/lib/long_memory.py:159-166 | as many fragments as the shorter of documents and metadatas, fragment i rebuilt from document i and metadata i |
| `LongMemory.Reconstruct` | udaplay/lib/long_memory.py:155-170 | reconstruction fails exactly when a present key has an empty outer list; on success the result metadata holds only "distances" and there are no more fragments than documents or than metadata mappings |
| `LongMemory.ReconstructContents` | udaplay/lib/long_memory.py:155-168 | whenever each key is missing or has a first inner list, the result holds min(documents, metadatas) fragments in engine order with content, owner, timestamp from pair i, namespace from metadata or "default", and the first distance list unchanged |
| `LongMemory.MissingKeysGiveNoFragments` | udaplay/lib/long_memory.py:156-157 | when no present key has an empty outer list, a missing documents or metadatas key gives an empty fragment list, not an error |
| `LongMemory.MissingDistancesGiveNone` | udaplay/lib/long_memory.py:168 | when no present key has an empty outer list, a missing distances key gives empty distances, not an error, whatever documents and metadatas hold otherwise |
| `LongMemory.UnalignedWithoutDistances` | udaplay/lib/long_memory.py:156-168 | without the engine's contract fragments and distances need not line up: one document, one metadata mapping and no distances key give one fragment and no distance |
| `LongMemory.EmptyAnswer` | udaplay/lib/long_memory.py:155-170 | an answer without any of the three keys is the empty result |
| `LongMemory.EmptyOuterListFails` | udaplay/lib/long_memory.py:156-168 | a present key whose outer list is empty makes the search fail with an index error, naming documents, then metadatas, then distances, whichever is the first such key in that reading order |
| `LongMemory.HonouredSearchInScope` | udaplay/lib/long_memory.py:51-54 | if the engine honours its contract for the built filter, the search succeeds, returns at most `limit` fragments and one distance per fragment, and every fragment has the requested namespace and owner, a timestamp inside the window, and comes from a stored document |
| `LongMemory.EmptyStoreSearch` | udaplay/lib/long_memory.py:153-170 | searching an empty collection with an honouring engine returns no fragments and no distances |
| `LongMemory.LongTermMemory.constructor` | udaplay/lib/long_memory.py:58-59 | the collection starts empty |
| `LongMemory.LongTermMemory.Register` | udaplay/lib/long_memory.py:75-100 | exactly one document is appended, holding the fragment's content and the merged metadata; earlier documents are unchanged; the reserved keys stay present on every document; the namespace list grows by exactly the new document's namespace, so a namespace already listed is listed again |
| `LongMemory.LongTermMemory.GetNamespaces` | udaplay/lib/long_memory.py:61-73 | one namespace per stored document, element i being document i's namespace, not deduplicated |
| `LongMemory.LongTermMemory.Search` | udaplay/lib/long_memory.py:102-170 | the result is the reconstruction of the engine's answer to the filter built from namespace, owner and timestamp filter; under the engine contract it is in scope |
| `LongMemory.DuplicateNamespaces` | udaplay/lib/long_memory.py:61-73 | two fragments registered in the namespace "work" list "work" twice |
| `LongMemory.RegisterThenSearch` | udaplay/lib/long_memory.py:75-170 | after registering one fragment, every fragment an honouring engine lets the search return is that fragment |

## Left out

- The vector engine: `VectorStoreManager.create_store`, the collection's `add`,
  `get` and `query`, are not part of this model. The collection is a sequence of
  documents, `add` an append, `get` a read of that sequence, and `query` a
  function parameter constrained only by the assumed `EngineHonours`.
- Embedding and nearest-neighbour ranking: semantic and external; the store does
  not re-sort, so the model keeps the engine's order without saying what it is.
- Distances are floats from the engine; the model uses `real` and only passes
  them through.
- The destructive `force=True` recreation at construction: the model's store
  starts with an empty sequence.
- `Document` (`lib.documents`) and `MemoryFragment` (`lib.short_memory`) are not
  part of this model; they are plain datatypes here.
- `Response` cannot express a key that is present with the value None (a
  TypeError at lines 156, 157 or 168 of the source), nor a None entry in the
  metadata list (an AttributeError at line 160); every metadata entry is a
  mapping.
- Errors raised by the engine (failed embedding, storing or querying) propagate
  unchanged in the source; the model has no engine failures. Only the index
  error that the store's own `[0]` can raise is modelled.
- The semantics of `"$eq": None` (a search with `namespace=None`) is the
  engine's; the model treats it as equality with `None`.
- The shape of what the engine's `get` returns: `get_namespaces` is modelled as
  one namespace per stored document, read from that document's metadata.
- Default argument values (`limit=3`, `namespace="default"`, no timestamp
  filter, no caller metadata) are not modelled; callers pass every argument.
- Concurrency: the store has no locking of its own.
