/** The string side of ResourceLoader: where a named texture lives on the class path,
    and which entries of a jar the listing of a resource directory returns. */
module ResourceLoader {
  import opened Wrappers

  const TEXTURE_DIR: string := "org/jephacake/assets/textures/"

  predicate StartsWith(s: string, prefix: string)
  {
    |prefix| <= |s| && s[..|prefix|] == prefix
  }

  predicate EndsWith(s: string, suffix: string)
  {
    |suffix| <= |s| && s[|s| - |suffix|..] == suffix
  }

  /** The class-path resource readTexture opens for a texture name. */
  function TexturePath(texture: string): (path: string)
    ensures StartsWith(path, TEXTURE_DIR) && EndsWith(path, ".png")
    ensures |path| == |TEXTURE_DIR| + |texture| + 4
  {
    TEXTURE_DIR + texture + ".png"
  }

  /** The name can be read back from the path, so distinct textures have distinct paths. */
  lemma TexturePathInverse(texture: string)
    ensures TexturePath(texture)[|TEXTURE_DIR|..|TEXTURE_DIR| + |texture|] == texture
  {
  }

  lemma TexturePathInjective(a: string, b: string)
    requires TexturePath(a) == TexturePath(b)
    ensures a == b
  {
    TexturePathInverse(a);
    TexturePathInverse(b);
  }

  /** readTexture: the bytes of the texture's resource, or the IOException raised when
      the class path has no such resource. lookup stands for getResource followed by
      readAllBytes. */
  function ReadTexture(texture: string, lookup: string -> Option<seq<bv8>>): (r: Result<seq<bv8>, string>)
    ensures lookup(TexturePath(texture)).Some? <==> r.Success?
    ensures r.Success? ==> r.value == lookup(TexturePath(texture)).value
    ensures r.Failure? ==> r.error == "Texture not found: " + TexturePath(texture)
  {
    var path := TexturePath(texture);
    match lookup(path)
    case None => Failure("Texture not found: " + path)
    case Some(bytes) => Success(bytes)
  }

  // ---------------------------------------------------------------------------
  // listResources over a jar

  datatype JarEntry = JarEntry(name: string, isDirectory: bool)

  /** The directory prefix of a resource path: a "/" is added unless it is there. */
  function DirPrefix(resourcePath: string): (prefix: string)
    ensures EndsWith(prefix, "/")
    ensures StartsWith(prefix, resourcePath)
  {
    if EndsWith(resourcePath, "/") then resourcePath else resourcePath + "/"
  }

  /** The name listResources reports for a jar entry, if any: a file (not a directory)
      right inside the prefix, with the prefix removed. */
  function TopLevelName(prefix: string, entry: JarEntry): (rel: Option<string>)
    ensures rel.Some? ==>
      (!entry.isDirectory && entry.name == prefix + rel.value && rel.value != [] && '/' !in rel.value)
  {
    if StartsWith(entry.name, prefix) && !entry.isDirectory then
      var rel := entry.name[|prefix|..];
      assert entry.name == prefix + rel;
      if rel != [] && '/' !in rel then Some(rel) else None
    else None
  }

  /** The names listResources collects from a jar's entries, in entry order. */
  function JarListing(prefix: string, entries: seq<JarEntry>): (names: seq<string>)
    ensures |names| <= |entries|
  {
    if entries == [] then []
    else
      var last := entries[|entries| - 1];
      JarListing(prefix, entries[..|entries| - 1])
        + (match TopLevelName(prefix, last) case Some(rel) => [rel] case None => [])
  }

  /** A name is listed exactly when some file entry is the prefix followed by that name,
      and the name is non-empty and has no further "/". */
  lemma {:induction false} JarListingMembers(prefix: string, entries: seq<JarEntry>, rel: string)
    ensures rel in JarListing(prefix, entries) <==>
      rel != [] && '/' !in rel && JarEntry(prefix + rel, false) in entries
  {
    if entries != [] {
      var init, last := entries[..|entries| - 1], entries[|entries| - 1];
      assert entries == init + [last];
      JarListingMembers(prefix, init, rel);
      if last == JarEntry(prefix + rel, false) {
        assert (prefix + rel)[|prefix|..] == rel;
      }
    }
  }

  /** The jar branch of listResources: every entry in turn, keeping the top-level files
      under the resource path. */
  method ListJarEntries(resourcePath: string, entries: seq<JarEntry>) returns (result: seq<string>)
    ensures result == JarListing(DirPrefix(resourcePath), entries)
  {
    var prefix := if EndsWith(resourcePath, "/") then resourcePath else resourcePath + "/";
    result := [];
    var i := 0;
    while i < |entries|
      invariant 0 <= i <= |entries|
      invariant result == JarListing(prefix, entries[..i])
    {
      var je := entries[i];
      var name := je.name;
      assert entries[..i + 1][..i] == entries[..i];
      if StartsWith(name, prefix) && !je.isDirectory {
        var rel := name[|prefix|..];
        if rel != [] && '/' !in rel {
          result := result + [rel];
        }
      }
      i := i + 1;
    }
    assert entries[..i] == entries;
  }
}
