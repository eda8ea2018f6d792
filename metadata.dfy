/**
 * Metadata values, memory fragments and stored documents, and the metadata
 * record that registration builds for a fragment.
 */
module Metadata {
  import opened Wrappers

  /**
   * A metadata value. The store is dynamically typed: owner and namespace are
   * normally strings and timestamp an integer, but caller-supplied metadata
   * may replace any of them, and a missing key reads as Python's None (`Null`).
   */
  datatype Value = Str(s: string) | Int(n: int) | Null

  /** A metadata mapping, as stored beside each document. */
  type Meta = map<string, Value>

  /** A memory fragment: the text plus the three fields used for scoping and filtering. */
  datatype Fragment = Fragment(content: string, owner: Value, namespace: Value, timestamp: Value)

  /** One record of the backing collection: the embedded text and its metadata. */
  datatype Document = Document(content: string, metadata: Meta)

  /** The keys that registration always writes. */
  const ReservedKeys: set<string> := {"owner", "namespace", "timestamp"}

  /** `meta.get(key)`: the stored value, or None when the key is absent. */
  function Get(meta: Meta, key: string): (v: Value) {
    if key in meta then meta[key] else Null
  }

  /** An optional string argument as a metadata value (None stays None). */
  function OptionalStr(o: Option<string>): (v: Value) {
    match o
    case Some(s) => Str(s)
    case None => Null
  }


  /**
   * The metadata stored for a registered fragment: the fragment's owner,
   * namespace and timestamp, then updated with the caller's metadata when that
   * is present and non-empty. The update comes last, so a caller key overrides
   * a reserved key of the same name.
   */
  function MergedMetadata(fragment: Fragment, extra: Option<Meta>): (m: Meta)
    ensures m.Keys == ReservedKeys + (if extra.Some? then extra.value.Keys else {})
    ensures extra.Some? ==> forall k :: k in extra.value ==> m[k] == extra.value[k]
    ensures "owner" in m && (extra.None? || "owner" !in extra.value ==> m["owner"] == fragment.owner)
    ensures "namespace" in m && (extra.None? || "namespace" !in extra.value ==> m["namespace"] == fragment.namespace)
    ensures "timestamp" in m && (extra.None? || "timestamp" !in extra.value ==> m["timestamp"] == fragment.timestamp)
  {
    var complete := FragmentMetadata(fragment);
    assert complete.Keys == ReservedKeys;
    if extra.Some? && |extra.value| != 0 then
      assert (complete + extra.value).Keys == complete.Keys + extra.value.Keys;
      complete + extra.value
    else
      assert extra.Some? ==> extra.value.Keys == {};
      complete
  }

  /** With no caller metadata, or an empty mapping, the record holds exactly the fragment's three fields. */
  lemma MergedWithoutExtra(fragment: Fragment, extra: Option<Meta>)
    requires extra.None? || extra.value == map[]
    ensures MergedMetadata(fragment, extra) == FragmentMetadata(fragment)
  {
  }

  /**
   * A fragment rebuilt from stored metadata: content from the document, owner
   * and timestamp read with `get` (None when absent), namespace read with
   * `get(..., "default")`.
   */
  function FragmentOf(content: string, meta: Meta): (f: Fragment)
    ensures f.content == content
    ensures "owner" in meta ==> f.owner == meta["owner"]
    ensures "namespace" in meta ==> f.namespace == meta["namespace"]
    ensures "timestamp" in meta ==> f.timestamp == meta["timestamp"]
    ensures "namespace" !in meta ==> f.namespace == Str("default")
    ensures "owner" !in meta ==> f.owner == Null
    ensures "timestamp" !in meta ==> f.timestamp == Null
  {
    Fragment(content, Get(meta, "owner"),
             if "namespace" in meta then meta["namespace"] else Str("default"),
             Get(meta, "timestamp"))
  }

  /**
   * The metadata that registration derives from a fragment, before caller
   * metadata is merged: exactly the three reserved keys, from which the
   * fragment is rebuilt unchanged.
   */
  function FragmentMetadata(fragment: Fragment): (m: Meta)
    ensures m.Keys == ReservedKeys
    ensures FragmentOf(fragment.content, m) == fragment
  {
    map["owner" := fragment.owner, "namespace" := fragment.namespace, "timestamp" := fragment.timestamp]
  }

  /**
   * Registering then rebuilding gives back the fragment, whenever the caller's
   * metadata leaves the three reserved keys alone.
   */
  lemma RoundTrip(fragment: Fragment, extra: Option<Meta>)
    requires extra.None? || ReservedKeys !! extra.value.Keys
    ensures FragmentOf(fragment.content, MergedMetadata(fragment, extra)) == fragment
  {
  }

  /** A caller key named like a reserved key wins: the rebuilt fragment carries the caller's value. */
  lemma CallerOverridesOwner(fragment: Fragment, extra: Meta)
    requires "owner" in extra
    ensures FragmentOf(fragment.content, MergedMetadata(fragment, Some(extra))).owner == extra["owner"]
  {
  }
}
