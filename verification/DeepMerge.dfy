/** Merging mapping documents: fragment references over fragment files, manifests over profiles. */
module DeepMerge {
  import opened Wrappers
  import opened Document

  // Both mappings: merge key by key.  Anything else: the overlay replaces the base.
  function Merge(base: Value, overlay: Value): Value
    decreases overlay
  {
    if base.Object? && overlay.Object? then
      Object(map key | key in base.fields.Keys + overlay.fields.Keys ::
               if key !in overlay.fields then base.fields[key]
               else if key !in base.fields then overlay.fields[key]
               else Merge(base.fields[key], overlay.fields[key]))
    else overlay
  }

  // The value at a path of keys.
  function Get(document: Value, path: seq<string>): Option<Value>
  {
    if path == [] then Some(document)
    else if document.Object? && path[0] in document.fields then Get(document.fields[path[0]], path[1..])
    else None
  }

  // The overlay has something other than a mapping strictly above the path.
  predicate Blocked(overlay: Value, path: seq<string>)
  {
    path != [] &&
    (!overlay.Object? || (path[0] in overlay.fields && Blocked(overlay.fields[path[0]], path[1..])))
  }

  /**
   The path law.  What the overlay says at a path wins, merged with the base where both are
   mappings; below a non-mapping of the overlay there is nothing; everywhere else the base shows.
   */
  lemma {:induction false} MergePathLaw(base: Value, overlay: Value, path: seq<string>)
    ensures Get(Merge(base, overlay), path) ==
            match Get(overlay, path)
            case Some(value) =>
              (match Get(base, path)
               case Some(below) => Some(Merge(below, value))
               case None => Some(value))
            case None => if Blocked(overlay, path) then None else Get(base, path)
    decreases |path|
  {
    if path != [] && base.Object? && overlay.Object? {
      var key := path[0];
      if key in base.fields && key in overlay.fields {
        MergePathLaw(base.fields[key], overlay.fields[key], path[1..]);
      } else if key in overlay.fields {
        NothingHere(overlay.fields[key], path[1..]);
      }
    } else if path != [] && overlay.Object? && path[0] in overlay.fields {
      NothingHere(overlay.fields[path[0]], path[1..]);
    }
  }

  // A path that a document lacks either runs into a non-mapping or into a missing key.
  lemma {:induction false} NothingHere(document: Value, path: seq<string>)
    ensures Blocked(document, path) ==> Get(document, path).None?
  {
    if path != [] && document.Object? && path[0] in document.fields {
      NothingHere(document.fields[path[0]], path[1..]);
    }
  }

  /** A leaf of the overlay always reaches the result. */
  lemma {:induction false} OverlayLeafWins(base: Value, overlay: Value, path: seq<string>)
    requires Get(overlay, path).Some? && !Get(overlay, path).value.Object?
    ensures Get(Merge(base, overlay), path) == Get(overlay, path)
  {
    MergePathLaw(base, overlay, path);
  }

  /** A leaf of the base survives exactly when the overlay neither overrides nor blocks its path. */
  lemma {:induction false} BaseLeafSurvives(base: Value, overlay: Value, path: seq<string>)
    requires Get(base, path).Some? && !Get(base, path).value.Object?
    ensures Get(Merge(base, overlay), path) == Get(base, path) <==>
            Get(overlay, path) == Get(base, path) || (Get(overlay, path).None? && !Blocked(overlay, path))
  {
    MergePathLaw(base, overlay, path);
  }

  lemma {:induction false} MergeIdempotent(document: Value)
    ensures Merge(document, document) == document
    decreases document
  {
    if document.Object? {
      var merged := Merge(document, document).fields;
      forall key | key in document.fields
        ensures merged[key] == document.fields[key]
      {
        MergeIdempotent(document.fields[key]);
      }
      assert merged == document.fields;
    }
  }

  /** Defaults that were merged under a document once have nothing more to add. */
  lemma {:induction false} MergeAbsorbs(defaults: Value, document: Value)
    ensures Merge(defaults, Merge(defaults, document)) == Merge(defaults, document)
    decreases document
  {
    var once := Merge(defaults, document);
    if defaults.Object? && document.Object? {
      var twice := Merge(defaults, once).fields;
      forall key | key in once.fields
        ensures key in twice && twice[key] == once.fields[key]
      {
        if key in defaults.fields {
          if key in document.fields {
            MergeAbsorbs(defaults.fields[key], document.fields[key]);
          } else {
            MergeIdempotent(defaults.fields[key]);
          }
        }
      }
      assert twice == once.fields;
    }
  }
}
