/**
  MediaObject: an implicitly shared (copy-on-write) record of a media item.
  Because every write detaches the shared data first, it behaves as a plain
  value, which is how it is modelled here.
 */
module Media {
  import opened Common

  /** The fields of MediaObjectPriv. */
  datatype MediaObject = MediaObject(id: int32, uri: string, path: string)

  /** MediaObject(): id -1, null uri and path. */
  function Default(): (m: MediaObject)
    ensures m.id == -1 && m.uri == "" && m.path == ""
  {
    MediaObject(-1, "", "")
  }

  /** operator==: compares id, path and uri, which is the whole object. */
  function Equals(a: MediaObject, b: MediaObject): (r: bool)
    ensures r <==> a == b
  {
    a.id == b.id && a.path == b.path && a.uri == b.uri
  }

  /** operator!=: the negation of operator==. */
  function NotEquals(a: MediaObject, b: MediaObject): (r: bool)
    ensures r <==> a != b
  {
    !Equals(a, b)
  }

  function SetUri(m: MediaObject, newUri: string): (r: MediaObject)
    ensures r.uri == newUri && r.id == m.id && r.path == m.path
  {
    m.(uri := newUri)
  }

  function SetId(m: MediaObject, newId: int32): (r: MediaObject)
    ensures r.id == newId && r.uri == m.uri && r.path == m.path
  {
    m.(id := newId)
  }

  function SetPath(m: MediaObject, newPath: string): (r: MediaObject)
    ensures r.path == newPath && r.id == m.id && r.uri == m.uri
  {
    m.(path := newPath)
  }

  /** The copy constructor: the copy shares the source's data, so it compares equal to it. */
  function Copy(other: MediaObject): (r: MediaObject)
    ensures Equals(r, other)
  {
    other
  }

  /**
    operator=: `self` takes `other`'s data unless both are the same object,
    in which case nothing happens. `aliased` says whether `&other == this`.
   */
  function Assign(self: MediaObject, other: MediaObject, aliased: bool): (r: MediaObject)
    requires aliased ==> self == other
    ensures Equals(r, other)
    ensures aliased ==> r == self
  {
    if aliased then self else other
  }

  /** operator== is an equivalence relation. */
  lemma EqualsIsEquivalence(a: MediaObject, b: MediaObject, c: MediaObject)
    ensures Equals(a, a)
    ensures Equals(a, b) == Equals(b, a)
    ensures Equals(a, b) && Equals(b, c) ==> Equals(a, c)
  {
  }

  /** Setting the three fields of a default object builds exactly that object, whatever the defaults were. */
  lemma SettersBuildObject(id: int32, uri: string, path: string)
    ensures SetUri(SetPath(SetId(Default(), id), path), uri) == MediaObject(id, uri, path)
  {
  }

  /** Setting a field to the value it has changes nothing; setting it twice keeps the last value. */
  lemma SetterLaws(m: MediaObject, u1: string, u2: string, i1: int32, i2: int32, p1: string, p2: string)
    ensures SetUri(m, m.uri) == m && SetId(m, m.id) == m && SetPath(m, m.path) == m
    ensures SetUri(SetUri(m, u1), u2) == SetUri(m, u2)
    ensures SetId(SetId(m, i1), i2) == SetId(m, i2)
    ensures SetPath(SetPath(m, p1), p2) == SetPath(m, p2)
  {
  }
}
