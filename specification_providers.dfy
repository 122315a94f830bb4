/** Search specifications over books, the per-field providers for author and cover
    image, and the registry that finds a provider by its key.

    A specification is modelled by the books it matches. The source composes JPA
    criteria; the query it becomes is `<field> IN (<values>)`, which holds when
    the field is one of the values and never for a null field. */
module SpecificationProviders {
  import opened Wrappers
  import opened Domain

  type Specification = Book -> bool

  /** A provider: the key it is registered under, and the specification it makes
      from the accepted values. */
  datatype SpecificationProvider = SpecificationProvider(key: string, getSpecification: seq<string> -> Specification)

  const AUTHOR_PARAM: string := "author"

  /** `AuthorSpecificationProvider.getSpecification`: author IN params. */
  function AuthorSpecification(params: seq<string>): Specification {
    (book: Book) => book.author in params
  }

  const AuthorProvider: SpecificationProvider := SpecificationProvider(AUTHOR_PARAM, AuthorSpecification)

  /** `Arrays.stream(params).toArray()`: a copy made element by element. */
  function StreamToArray(params: seq<string>): (copy: seq<string>)
    ensures copy == params
  {
    if params == [] then [] else [params[0]] + StreamToArray(params[1..])
  }

  /** `CoverImageSpecificationProvider.getSpecification`: coverImage IN a copy of
      params; a book without a cover image is never matched. */
  function CoverImageSpecification(params: seq<string>): Specification {
    (book: Book) => book.coverImage.Some? && book.coverImage.value in StreamToArray(params)
  }

  const CoverImageProvider: SpecificationProvider := SpecificationProvider("coverImage", CoverImageSpecification)

  function HasKey(key: string): SpecificationProvider -> bool {
    (provider: SpecificationProvider) => provider.key == key
  }

  /** The registry: built from a list of providers, it returns the first one whose
      key is the one asked for, and fails with a RuntimeException naming the key
      otherwise. */
  function GetSpecificationProvider(providers: seq<SpecificationProvider>, key: string): (r: Result<SpecificationProvider, Error>)
    ensures r.Ok? <==> exists i :: 0 <= i < |providers| && providers[i].key == key
    ensures r.Ok? ==> r.value.key == key
    ensures r.Ok? ==>
      exists i :: 0 <= i < |providers| && providers[i] == r.value && forall j :: 0 <= j < i ==> providers[j].key != key
    ensures r.Err? ==> r.error == NoProviderForKey(key)
  {
    match FirstIndex(providers, HasKey(key))
    case Some(i) => Ok(providers[i])
    case None =>
      assert forall k :: 0 <= k < |providers| ==> !HasKey(key)(providers[k]);
      Err(NoProviderForKey(key))
  }

  // ---- author ----

  /** The author specification matches a book exactly when its author equals one
      of the values, character for character. */
  lemma AuthorMatches(params: seq<string>, book: Book)
    ensures AuthorSpecification(params)(book) <==> exists i :: 0 <= i < |params| && params[i] == book.author
  {
  }

  /** No substring or pattern matching: "Joshua" does not find "Joshua Bloch". */
  lemma AuthorIsExact(book: Book)
    requires book.author == "Joshua Bloch"
    ensures !AuthorSpecification(["Joshua"])(book)
    ensures !AuthorSpecification(["joshua bloch"])(book)
    ensures AuthorSpecification(["Joshua Bloch"])(book)
  {
    assert "Joshua Bloch"[..6] == "Joshua";
    assert "Joshua Bloch"[0] != "joshua bloch"[0];
  }

  /** Only the set of values counts: reordering or repeating them changes nothing. */
  lemma AuthorDependsOnSet(p1: seq<string>, p2: seq<string>)
    requires forall x :: x in p1 <==> x in p2
    ensures forall book: Book :: AuthorSpecification(p1)(book) == AuthorSpecification(p2)(book)
  {
    forall book: Book ensures AuthorSpecification(p1)(book) == AuthorSpecification(p2)(book) {
      assert AuthorSpecification(p1)(book) == (book.author in p1);
    }
  }

  // ---- cover image ----

  /** The copy through a stream does not change what matches: coverImage IN params. */
  lemma CoverImageMatches(params: seq<string>, book: Book)
    ensures CoverImageSpecification(params)(book) <==>
      book.coverImage.Some? && exists i :: 0 <= i < |params| && params[i] == book.coverImage.value
  {
  }

  lemma CoverImageDependsOnSet(p1: seq<string>, p2: seq<string>)
    requires forall x :: x in p1 <==> x in p2
    ensures forall book: Book :: CoverImageSpecification(p1)(book) == CoverImageSpecification(p2)(book)
  {
    forall book: Book | book.coverImage.Some?
      ensures CoverImageSpecification(p1)(book) == CoverImageSpecification(p2)(book)
    {
      assert CoverImageSpecification(p1)(book) == (book.coverImage.value in p1);
    }
  }

  // ---- registry ----

  /** The providers' keys. */
  lemma ProviderKeys()
    ensures AuthorProvider.key == "author" && CoverImageProvider.key == "coverImage"
  {
  }

  /** What the registry's tests pin down: a registered key finds its provider,
      among several the right one, and an unknown key or an empty registry fails
      with the message naming the key. */
  lemma RegistryLookups()
    ensures GetSpecificationProvider([AuthorProvider], "author").Ok?
    ensures GetSpecificationProvider([AuthorProvider, CoverImageProvider], "coverImage") == Ok(CoverImageProvider)
    ensures GetSpecificationProvider([AuthorProvider], "nonexistent") ==
      Err(NoProvider("No specification provider found for key: nonexistent"))
    ensures GetSpecificationProvider([], "author") == Err(NoProvider("No specification provider found for key: author"))
  {
    assert "coverImage"[0] != "author"[0];
    assert "nonexistent"[0] != "author"[0];
    assert FirstIndex([AuthorProvider, CoverImageProvider], HasKey("coverImage")) == Some(1);
    assert FirstIndex([AuthorProvider], HasKey("nonexistent")) == None;
    assert NoProviderForKey("nonexistent") == NoProvider("No specification provider found for key: nonexistent");
    assert NoProviderForKey("author") == NoProvider("No specification provider found for key: author");
  }
}
