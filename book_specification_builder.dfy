/** `BookSpecificationBuilder.build`: start from the specification that restricts
    nothing, and for each of the six search fields, in a fixed order, AND on the
    specification of the provider registered for that field's key, but only when
    the caller supplied a non-empty array for it.

    The registry lookup can throw; the model returns the error instead, and
    also returns the keys it looked up, in order, which is what the source's
    tests observe through their mocks. */
module BookSpecificationBuilder {
  import opened Wrappers
  import opened Domain
  import opened SpecificationProviders

  /** The search request: each field is an array the caller may leave null. */
  datatype BookSearchParameters = BookSearchParameters(
    authors: Option<seq<string>>,
    titles: Option<seq<string>>,
    isbns: Option<seq<string>>,
    descriptions: Option<seq<string>>,
    coverImages: Option<seq<string>>,
    prices: Option<seq<string>>)

  /** One of the builder's six guarded steps: a registry key and the field it reads. */
  datatype Slot = Slot(key: string, values: Option<seq<string>>)

  /** A field that takes part in the search: its key and the caller's values. */
  datatype Field = Field(key: string, values: seq<string>)

  /** The guard of every step: the array is not null and not empty. */
  predicate Supplied(values: Option<seq<string>>) {
    values.Some? && |values.value| > 0
  }

  function Contribution(slot: Slot): seq<Field> {
    if Supplied(slot.values) then [Field(slot.key, slot.values.value)] else []
  }

  /** The fields a search takes part with, in the builder's order. */
  function ActiveFields(p: BookSearchParameters): seq<Field> {
    Contribution(Slot("author", p.authors)) +
    (Contribution(Slot("title", p.titles)) +
    (Contribution(Slot("isbn", p.isbns)) +
    (Contribution(Slot("description", p.descriptions)) +
    (Contribution(Slot("coverImage", p.coverImages)) +
     Contribution(Slot("price", p.prices))))))
  }

  function Keys(fields: seq<Field>): (keys: seq<string>)
    ensures |keys| == |fields|
    ensures forall k :: 0 <= k < |fields| ==> keys[k] == fields[k].key
  {
    if fields == [] then [] else [fields[0].key] + Keys(fields[1..])
  }

  predicate Registered(registry: seq<SpecificationProvider>, key: string) {
    GetSpecificationProvider(registry, key).Ok?
  }

  predicate AllRegistered(registry: seq<SpecificationProvider>, fields: seq<Field>) {
    forall k :: 0 <= k < |fields| ==> Registered(registry, fields[k].key)
  }

  /** A book passes a field when the provider registered for its key, given the
      field's values, matches it. */
  predicate FieldMatches(registry: seq<SpecificationProvider>, field: Field, book: Book)
    requires Registered(registry, field.key)
  {
    GetSpecificationProvider(registry, field.key).value.getSpecification(field.values)(book)
  }

  predicate AllMatch(registry: seq<SpecificationProvider>, fields: seq<Field>, book: Book)
    requires AllRegistered(registry, fields)
  {
    forall k :: 0 <= k < |fields| ==> FieldMatches(registry, fields[k], book)
  }

  /** The base specification, whose predicate is null: it restricts nothing. */
  const NoRestriction: Specification := (book: Book) => true

  /** `Specification.and`. */
  function And(left: Specification, right: Specification): Specification {
    (book: Book) => left(book) && right(book)
  }

  /** `spec.and(...)` for each field in turn, each time with the specification of
      the provider registered for the field's key. */
  function ComposeOnto(registry: seq<SpecificationProvider>, spec: Specification, fields: seq<Field>): Specification
    requires AllRegistered(registry, fields)
  {
    if fields == [] then spec
    else
      var last := fields[|fields| - 1];
      And(ComposeOnto(registry, spec, fields[..|fields| - 1]),
          GetSpecificationProvider(registry, last.key).value.getSpecification(last.values))
  }

  /** `spec` matches exactly the books that pass every field. */
  ghost predicate Selects(registry: seq<SpecificationProvider>, fields: seq<Field>, spec: Specification)
    requires AllRegistered(registry, fields)
  {
    forall book :: spec(book) <==> AllMatch(registry, fields, book)
  }

  /** A search over `fields` failed after looking up the keys `consulted`: they
      are the first keys of the search, in order, all of them registered but the
      last, which the error names. */
  ghost predicate FailedAt(registry: seq<SpecificationProvider>, fields: seq<Field>, consulted: seq<string>, error: Error) {
    && consulted != [] && consulted <= Keys(fields)
    && (forall k :: 0 <= k < |consulted| - 1 ==> Registered(registry, consulted[k]))
    && !Registered(registry, consulted[|consulted| - 1])
    && error == NoProviderForKey(consulted[|consulted| - 1])
    && !AllRegistered(registry, fields)
  }

  /** Where `build` stands between two steps: `done` are the fields of the steps
      taken, all of which succeeded, and `rest` those of the steps to come; the
      keys looked up are those of `done` and the specification is theirs ANDed
      onto the base. */
  ghost predicate Progress(registry: seq<SpecificationProvider>, whole: seq<Field>, done: seq<Field>,
                           rest: seq<Field>, spec: Specification, consulted: seq<string>)
  {
    && done + rest == whole
    && consulted == Keys(done)
    && AllRegistered(registry, done)
    && spec == ComposeOnto(registry, NoRestriction, done)
  }

  /** One guarded step of `build`: when the field is supplied, look its key up
      and AND the provider's specification of the caller's values onto `spec`.
      It fails exactly when the field is supplied and its key is not registered. */
  method AndField(registry: seq<SpecificationProvider>, ghost whole: seq<Field>,
                  ghost done: seq<Field>, ghost rest: seq<Field>,
                  spec: Specification, consulted: seq<string>, slot: Slot)
    returns (r: Result<Specification, Error>, consultedAfter: seq<string>)
    requires Progress(registry, whole, done, Contribution(slot) + rest, spec, consulted)
    ensures r.Ok? <==> Registered(registry, slot.key) || !Supplied(slot.values)
    ensures r.Ok? ==> Progress(registry, whole, done + Contribution(slot), rest, r.value, consultedAfter)
    ensures r.Err? ==> FailedAt(registry, whole, consultedAfter, r.error)
  {
    if slot.values.Some? && |slot.values.value| > 0 {
      consultedAfter := consulted + [slot.key];
      var provider := GetSpecificationProvider(registry, slot.key);
      if provider.Err? {
        StepFails(registry, done, Contribution(slot), rest, slot.key);
        return Err(provider.error), consultedAfter;
      }
      r := Ok(And(spec, provider.value.getSpecification(slot.values.value)));
      StepSucceeds(registry, whole, done, Contribution(slot), rest, spec, consulted);
    } else {
      r, consultedAfter := Ok(spec), consulted;
      StepSkipped(registry, whole, done, Contribution(slot), rest, spec, consulted);
    }
  }

  /** `build`: the six guarded steps in the source's order, from no restriction. */
  method Build(registry: seq<SpecificationProvider>, p: BookSearchParameters)
    returns (r: Result<Specification, Error>, consulted: seq<string>)
    ensures r.Ok? <==> AllRegistered(registry, ActiveFields(p))
    ensures r.Ok? ==> consulted == Keys(ActiveFields(p)) && Selects(registry, ActiveFields(p), r.value)
    ensures r.Err? ==> FailedAt(registry, ActiveFields(p), consulted, r.error)
  {
    var spec := NoRestriction;
    consulted := [];
    ghost var whole := ActiveFields(p);
    ghost var done: seq<Field> := [];
    EmptyAppend(whole);
    assert Progress(registry, whole, done, whole, spec, consulted);
    ghost var rest := Contribution(Slot("title", p.titles)) +
      (Contribution(Slot("isbn", p.isbns)) +
      (Contribution(Slot("description", p.descriptions)) +
      (Contribution(Slot("coverImage", p.coverImages)) +
       Contribution(Slot("price", p.prices)))));

    r, consulted := AndField(registry, whole, done, rest, spec, consulted, Slot("author", p.authors));
    if r.Err? {
      return;
    }
    spec, done := r.value, done + Contribution(Slot("author", p.authors));
    rest := Contribution(Slot("isbn", p.isbns)) +
      (Contribution(Slot("description", p.descriptions)) +
      (Contribution(Slot("coverImage", p.coverImages)) +
       Contribution(Slot("price", p.prices))));

    r, consulted := AndField(registry, whole, done, rest, spec, consulted, Slot("title", p.titles));
    if r.Err? {
      return;
    }
    spec, done := r.value, done + Contribution(Slot("title", p.titles));
    rest := Contribution(Slot("description", p.descriptions)) +
      (Contribution(Slot("coverImage", p.coverImages)) +
       Contribution(Slot("price", p.prices)));

    r, consulted := AndField(registry, whole, done, rest, spec, consulted, Slot("isbn", p.isbns));
    if r.Err? {
      return;
    }
    spec, done := r.value, done + Contribution(Slot("isbn", p.isbns));
    rest := Contribution(Slot("coverImage", p.coverImages)) + Contribution(Slot("price", p.prices));

    r, consulted := AndField(registry, whole, done, rest, spec, consulted, Slot("description", p.descriptions));
    if r.Err? {
      return;
    }
    spec, done := r.value, done + Contribution(Slot("description", p.descriptions));
    rest := Contribution(Slot("price", p.prices));

    r, consulted := AndField(registry, whole, done, rest, spec, consulted, Slot("coverImage", p.coverImages));
    if r.Err? {
      return;
    }
    spec, done := r.value, done + Contribution(Slot("coverImage", p.coverImages));
    AppendEmpty(Contribution(Slot("price", p.prices)));
    rest := [];

    r, consulted := AndField(registry, whole, done, rest, spec, consulted, Slot("price", p.prices));
    if r.Err? {
      return;
    }
    spec, done := r.value, done + Contribution(Slot("price", p.prices));

    AppendEmpty(done);
    ComposeSelects(registry, done);
  }

  // ---- the step lemmas ----

  lemma KeysAppend(a: seq<Field>, b: seq<Field>)
    ensures Keys(a + b) == Keys(a) + Keys(b)
  {
  }

  lemma AllRegisteredAppend(registry: seq<SpecificationProvider>, a: seq<Field>, b: seq<Field>)
    requires AllRegistered(registry, a) && AllRegistered(registry, b)
    ensures AllRegistered(registry, a + b)
  {
    forall k | 0 <= k < |a + b| ensures (a + b)[k] == (if k < |a| then a[k] else b[k - |a|]) {
    }
  }

  /** A step whose field is supplied and registered: the progress covers it. */
  lemma StepSucceeds(registry: seq<SpecificationProvider>, whole: seq<Field>, done: seq<Field>, c: seq<Field>,
                     rest: seq<Field>, spec: Specification, consulted: seq<string>)
    requires |c| == 1 && Registered(registry, c[0].key)
    requires Progress(registry, whole, done, c + rest, spec, consulted)
    ensures Progress(registry, whole, done + c, rest,
                     And(spec, GetSpecificationProvider(registry, c[0].key).value.getSpecification(c[0].values)),
                     consulted + [c[0].key])
  {
    Associative(done, c, rest);
    KeysAppend(done, c);
    AllRegisteredAppend(registry, done, c);
    ComposeOntoSnoc(registry, done, c);
  }

  /** A step whose field is not supplied changes nothing. */
  lemma StepSkipped(registry: seq<SpecificationProvider>, whole: seq<Field>, done: seq<Field>, c: seq<Field>,
                    rest: seq<Field>, spec: Specification, consulted: seq<string>)
    requires c == []
    requires Progress(registry, whole, done, c + rest, spec, consulted)
    ensures Progress(registry, whole, done + c, rest, spec, consulted)
  {
    AppendEmpty(done);
    EmptyAppend(rest);
  }

  lemma AppendEmpty(a: seq<Field>)
    ensures a + [] == a
  {
  }

  lemma EmptyAppend(a: seq<Field>)
    ensures [] + a == a
  {
  }

  lemma Associative(a: seq<Field>, b: seq<Field>, c: seq<Field>)
    ensures (a + b) + c == a + (b + c)
  {
  }

  lemma ComposeOntoSnoc(registry: seq<SpecificationProvider>, done: seq<Field>, c: seq<Field>)
    requires |c| == 1 && AllRegistered(registry, done + c) && AllRegistered(registry, done)
    requires Registered(registry, c[0].key)
    ensures ComposeOnto(registry, NoRestriction, done + c) ==
      And(ComposeOnto(registry, NoRestriction, done),
          GetSpecificationProvider(registry, c[0].key).value.getSpecification(c[0].values))
  {
    assert (done + c)[..|done|] == done;
    assert (done + c)[|done|] == c[0];
  }

  /** A step whose field is supplied and not registered: the keys looked up are
      those of the steps before it and its own, all registered but the last. */
  lemma StepFails(registry: seq<SpecificationProvider>, done: seq<Field>, c: seq<Field>, rest: seq<Field>, key: string)
    requires |c| == 1 && c[0].key == key
    requires AllRegistered(registry, done) && !Registered(registry, key)
    ensures FailedAt(registry, done + (c + rest), Keys(done) + [key], NoProviderForKey(key))
  {
    KeysAppend(done, c + rest);
    KeysAppend(c, rest);
    assert (done + (c + rest))[|done|] == c[0];
  }

  lemma ComposeSelects(registry: seq<SpecificationProvider>, fields: seq<Field>)
    requires AllRegistered(registry, fields)
    ensures Selects(registry, fields, ComposeOnto(registry, NoRestriction, fields))
  {
    forall book ensures ComposeOnto(registry, NoRestriction, fields)(book) <==> AllMatch(registry, fields, book) {
      ComposeOntoMeans(registry, NoRestriction, fields, book);
    }
  }

  /** What the composed specification matches: the books `spec` matches that
      pass every field. */
  lemma {:induction false} ComposeOntoMeans(registry: seq<SpecificationProvider>, spec: Specification,
                                             fields: seq<Field>, book: Book)
    requires AllRegistered(registry, fields)
    ensures ComposeOnto(registry, spec, fields)(book) <==> spec(book) && AllMatch(registry, fields, book)
  {
    if fields != [] {
      AllMatchSnoc(registry, fields, book);
      ComposeOntoMeans(registry, spec, fields[..|fields| - 1], book);
    }
  }

  /** Passing every field is passing all but the last, and the last. */
  lemma AllMatchSnoc(registry: seq<SpecificationProvider>, fields: seq<Field>, book: Book)
    requires fields != [] && AllRegistered(registry, fields)
    ensures AllRegistered(registry, fields[..|fields| - 1])
    ensures AllMatch(registry, fields, book) <==>
      AllMatch(registry, fields[..|fields| - 1], book) && FieldMatches(registry, fields[|fields| - 1], book)
  {
    var init := fields[..|fields| - 1];
    forall k | 0 <= k < |init| ensures init[k] == fields[k] {
    }
  }

  // ---- what a search takes part with ----

  /** The caller's array for a registry key, for the six keys the builder reads. */
  function Parameter(p: BookSearchParameters, key: string): Option<seq<string>> {
    if key == "author" then p.authors
    else if key == "title" then p.titles
    else if key == "isbn" then p.isbns
    else if key == "description" then p.descriptions
    else if key == "coverImage" then p.coverImages
    else if key == "price" then p.prices
    else None
  }

  /** A field takes part exactly when the caller supplied a non-empty array for
      it, and its provider is given that array as it is. */
  lemma ActiveFieldsAreSupplied(p: BookSearchParameters, f: Field)
    ensures f in ActiveFields(p) <==> Supplied(Parameter(p, f.key)) && f.values == Parameter(p, f.key).value
  {
    DistinctKeys();
    InContribution(Slot("author", p.authors), f);
    InContribution(Slot("title", p.titles), f);
    InContribution(Slot("isbn", p.isbns), f);
    InContribution(Slot("description", p.descriptions), f);
    InContribution(Slot("coverImage", p.coverImages), f);
    InContribution(Slot("price", p.prices), f);
  }

  lemma InContribution(slot: Slot, f: Field)
    ensures f in Contribution(slot) <==> f.key == slot.key && Supplied(slot.values) && f.values == slot.values.value
  {
  }

  lemma DistinctKeys()
    ensures "author" != "title" && "author" != "isbn" && "author" != "description"
    ensures "author" != "coverImage" && "author" != "price"
    ensures "title" != "isbn" && "title" != "description" && "title" != "coverImage" && "title" != "price"
    ensures "isbn" != "description" && "isbn" != "coverImage" && "isbn" != "price"
    ensures "description" != "coverImage" && "description" != "price" && "coverImage" != "price"
  {
    assert "author"[0] == 'a' && "title"[0] == 't' && "isbn"[0] == 'i';
    assert "description"[0] == 'd' && "coverImage"[0] == 'c' && "price"[0] == 'p';
  }

  /** No parameters: no lookups, and the base specification, which matches
      every book. */
  method BuildWithoutParameters(registry: seq<SpecificationProvider>)
    returns (r: Result<Specification, Error>, consulted: seq<string>)
    ensures consulted == [] && r.Ok?
    ensures forall book :: r.value(book)
  {
    var p := BookSearchParameters(None, None, None, None, None, None);
    r, consulted := Build(registry, p);
    assert ActiveFields(p) == [];
  }

  /** Two authors: one lookup, of "author", and the provider's specification of
      exactly those two values. */
  method BuildByAuthors(registry: seq<SpecificationProvider>)
    returns (r: Result<Specification, Error>, consulted: seq<string>)
    requires Registered(registry, "author")
    ensures consulted == ["author"] && r.Ok?
    ensures forall book :: r.value(book) <==>
      GetSpecificationProvider(registry, "author").value.getSpecification(["Author1", "Author2"])(book)
  {
    var p := BookSearchParameters(Some(["Author1", "Author2"]), None, None, None, None, None);
    r, consulted := Build(registry, p);
    assert ActiveFields(p) == [Field("author", ["Author1", "Author2"])];
  }

  /** Author, title and isbn: three lookups, in that order. */
  method BuildByAuthorTitleIsbn(registry: seq<SpecificationProvider>)
    returns (r: Result<Specification, Error>, consulted: seq<string>)
    requires Registered(registry, "author") && Registered(registry, "title") && Registered(registry, "isbn")
    ensures consulted == ["author", "title", "isbn"] && r.Ok?
  {
    var p := BookSearchParameters(Some(["Author1"]), Some(["Title1"]), Some(["ISBN123"]), None, None, None);
    ThreeFields(registry, p);
    r, consulted := Build(registry, p);
  }

  lemma ThreeFields(registry: seq<SpecificationProvider>, p: BookSearchParameters)
    requires p == BookSearchParameters(Some(["Author1"]), Some(["Title1"]), Some(["ISBN123"]), None, None, None)
    requires Registered(registry, "author") && Registered(registry, "title") && Registered(registry, "isbn")
    ensures AllRegistered(registry, ActiveFields(p))
    ensures Keys(ActiveFields(p)) == ["author", "title", "isbn"]
  {
    var fields := [Field("author", ["Author1"]), Field("title", ["Title1"]), Field("isbn", ["ISBN123"])];
    assert Contribution(Slot("description", p.descriptions)) == [];
    assert Contribution(Slot("coverImage", p.coverImages)) == [];
    assert Contribution(Slot("price", p.prices)) == [];
    assert ActiveFields(p) == [fields[0]] + ([fields[1]] + ([fields[2]] + ([] + ([] + []))));
    assert ActiveFields(p) == fields;
    assert Keys(fields) == ["author"] + Keys(fields[1..]);
    assert Keys(fields[1..]) == ["title"] + Keys(fields[2..]);
  }

  /** The two providers modelled here, registered together. */
  const AuthorAndCoverImage: seq<SpecificationProvider> := [AuthorProvider, CoverImageProvider]

  /** A search by authors and cover images finds the books with one of the
      authors and one of the cover images. */
  method BuildByAuthorsAndCoverImages(authors: seq<string>, covers: seq<string>)
    returns (r: Result<Specification, Error>, consulted: seq<string>)
    requires |authors| > 0 && |covers| > 0
    ensures r.Ok? && consulted == ["author", "coverImage"]
    ensures forall book :: r.value(book) <==>
      book.author in authors && book.coverImage.Some? && book.coverImage.value in covers
  {
    var p := BookSearchParameters(Some(authors), None, None, None, Some(covers), None);
    RegistryFinds(AuthorAndCoverImage);
    TwoFields(authors, covers, p);
    r, consulted := Build(AuthorAndCoverImage, p);
    AuthorAndCoverImageSelect(authors, covers, r.value);
  }

  lemma TwoFields(authors: seq<string>, covers: seq<string>, p: BookSearchParameters)
    requires |authors| > 0 && |covers| > 0
    requires p == BookSearchParameters(Some(authors), None, None, None, Some(covers), None)
    ensures ActiveFields(p) == [Field("author", authors), Field("coverImage", covers)]
    ensures Keys(ActiveFields(p)) == ["author", "coverImage"]
  {
    var fields := [Field("author", authors), Field("coverImage", covers)];
    assert Contribution(Slot("title", p.titles)) == [];
    assert Contribution(Slot("isbn", p.isbns)) == [];
    assert Contribution(Slot("description", p.descriptions)) == [];
    assert Contribution(Slot("price", p.prices)) == [];
    assert ActiveFields(p) == [fields[0]] + ([] + ([] + ([] + ([fields[1]] + []))));
    assert ActiveFields(p) == fields;
    assert Keys(fields) == ["author"] + Keys(fields[1..]);
  }

  lemma AuthorAndCoverImageSelect(authors: seq<string>, covers: seq<string>, spec: Specification)
    requires AllRegistered(AuthorAndCoverImage, [Field("author", authors), Field("coverImage", covers)])
    requires Selects(AuthorAndCoverImage, [Field("author", authors), Field("coverImage", covers)], spec)
    ensures forall book :: spec(book) <==>
      book.author in authors && book.coverImage.Some? && book.coverImage.value in covers
  {
    RegistryFinds(AuthorAndCoverImage);
    var fields := [Field("author", authors), Field("coverImage", covers)];
    forall book ensures spec(book) <==> book.author in authors && book.coverImage.Some? && book.coverImage.value in covers {
      assert AllMatch(AuthorAndCoverImage, fields, book) <==>
        FieldMatches(AuthorAndCoverImage, fields[0], book) && FieldMatches(AuthorAndCoverImage, fields[1], book);
    }
  }

  /** No title provider is registered beside those two: a search by title fails
      naming the key, after that one lookup. */
  method BuildByTitlesUnregistered(titles: seq<string>)
    returns (r: Result<Specification, Error>, consulted: seq<string>)
    requires |titles| > 0
    ensures r.Err? && r.error == NoProviderForKey("title") && consulted == ["title"]
  {
    var p := BookSearchParameters(None, Some(titles), None, None, None, None);
    RegistryFinds(AuthorAndCoverImage);
    r, consulted := Build(AuthorAndCoverImage, p);
    assert ActiveFields(p) == [Field("title", titles)];
    FailedAtOnlyField(AuthorAndCoverImage, Field("title", titles), consulted, r.error);
  }

  /** A search with one field that fails looked up that field's key alone. */
  lemma FailedAtOnlyField(registry: seq<SpecificationProvider>, f: Field, consulted: seq<string>, error: Error)
    requires FailedAt(registry, [f], consulted, error)
    ensures consulted == [f.key] && error == NoProviderForKey(f.key)
  {
  }

  lemma RegistryFinds(registry: seq<SpecificationProvider>)
    requires registry == [AuthorProvider, CoverImageProvider]
    ensures GetSpecificationProvider(registry, "author") == Ok(AuthorProvider)
    ensures GetSpecificationProvider(registry, "coverImage") == Ok(CoverImageProvider)
    ensures !Registered(registry, "title")
  {
    DistinctKeys();
    assert FirstIndex(registry, HasKey("author")) == Some(0);
    assert FirstIndex(registry, HasKey("coverImage")) == Some(1);
    assert FirstIndex(registry, HasKey("title")) == None;
  }
}
