/**
 The error contract of apigen/errorapi/contract.go: codes, categories, the search for them
 in a tree of wrapped and joined errors, and what `errors.Is` answers for the sentinels.
 */
module ErrorContract {
  import opened Basics

  /** The generated codes; `Unlisted` is any other text the server sends. */
  datatype ErrorCode =
    | NoCode
    | NotFound | ObjectNotFound | BucketScopeNotFound | FileUsageNotFound | MultipartUploadNotFound
    | ObjectLocationUnavailable | StorageNotFound | ProjectScopeNotFound | StorageCredentialMissing
    | Unauthorized | AuthenticationRequired
    | Forbidden | AccessDenied | StorageForbidden
    | Conflict | ConflictingSha256 | ObjectSizeImmutable | ObjectChecksumImmutable | BulkOverwriteConflict
    | StorageBucketUnavailable
    | InvalidInput | RequestFailed | NoValidSha256 | AccessMethodsRequired | StorageInvalid | StorageUnsupported
    | RateLimited
    | Unavailable | BucketNotConfigured | StorageUnavailable | StorageIncomplete | StorageProviderError
    | StorageListingIncomplete
    | InternalError
    | Unlisted(text: string)

  datatype ErrorCategory =
    | NoCategory
    | CatNotFound | CatUnauthorized | CatForbidden | CatConflict | CatInvalidInput | CatRateLimited
    | CatUnavailable | CatInternalError
    | CatUnlisted(text: string)

  // ---------- tables ----------

  predicate IsBroadCode(code: ErrorCode) {
    match code
    case NotFound | Unauthorized | Forbidden | Conflict | InvalidInput | RateLimited | Unavailable | InternalError
      | RequestFailed => true
    case _ => false
  }

  function CategoryForCode(code: ErrorCode): Option<ErrorCategory> {
    match code
    case NotFound | ObjectNotFound | BucketScopeNotFound | FileUsageNotFound | MultipartUploadNotFound
      | ObjectLocationUnavailable | StorageNotFound | ProjectScopeNotFound | StorageCredentialMissing => Some(CatNotFound)
    case Unauthorized | AuthenticationRequired => Some(CatUnauthorized)
    case Forbidden | AccessDenied | StorageForbidden => Some(CatForbidden)
    case Conflict | ConflictingSha256 | ObjectSizeImmutable | ObjectChecksumImmutable | BulkOverwriteConflict
      | StorageBucketUnavailable => Some(CatConflict)
    case InvalidInput | RequestFailed | NoValidSha256 | AccessMethodsRequired | StorageInvalid
      | StorageUnsupported => Some(CatInvalidInput)
    case RateLimited => Some(CatRateLimited)
    case Unavailable | BucketNotConfigured | StorageUnavailable | StorageIncomplete | StorageProviderError
      | StorageListingIncomplete => Some(CatUnavailable)
    case InternalError => Some(CatInternalError)
    case _ => None
  }

  function CodeForStatus(status: int): ErrorCode {
    match status
    case 404 => NotFound
    case 401 => Unauthorized
    case 403 => Forbidden
    case 409 => Conflict
    case 400 => InvalidInput
    case 422 => InvalidInput
    case 413 => InvalidInput
    case 429 => RateLimited
    case 502 => Unavailable
    case 503 => Unavailable
    case 504 => Unavailable
    case _ => if status >= 500 then InternalError else RequestFailed
  }

  function CategoryForStatus(status: int): ErrorCategory {
    match status
    case 404 => CatNotFound
    case 401 => CatUnauthorized
    case 403 => CatForbidden
    case 409 => CatConflict
    case 400 => CatInvalidInput
    case 422 => CatInvalidInput
    case 413 => CatInvalidInput
    case 429 => CatRateLimited
    case 502 => CatUnavailable
    case 503 => CatUnavailable
    case 504 => CatUnavailable
    case _ =>
      if status >= 500 then CatInternalError
      else match CategoryForCode(CodeForStatus(status)) case Some(c) => c case None => NoCategory
  }

  /** The statuses with a code of their own. */
  const STATUS_CODES: map<int, ErrorCode> := map[
    400 := InvalidInput, 401 := Unauthorized, 403 := Forbidden, 404 := NotFound, 409 := Conflict, 413 := InvalidInput,
    422 := InvalidInput, 429 := RateLimited, 502 := Unavailable, 503 := Unavailable, 504 := Unavailable]

  /** Any other status from 500 on is an internal error, and any other below it a failed request. */
  lemma StatusCodes(status: int)
    ensures CodeForStatus(status) ==
            if status in STATUS_CODES then STATUS_CODES[status] else if status >= 500 then InternalError else RequestFailed
  {
  }

  /** The codes of each category; all others have none. */
  predicate Belongs(code: ErrorCode, category: ErrorCategory) {
    match category
    case CatNotFound =>
      || code.NotFound? || code.ObjectNotFound? || code.BucketScopeNotFound? || code.FileUsageNotFound?
      || code.MultipartUploadNotFound? || code.ObjectLocationUnavailable? || code.StorageNotFound?
      || code.ProjectScopeNotFound? || code.StorageCredentialMissing?
    case CatUnauthorized => code.Unauthorized? || code.AuthenticationRequired?
    case CatForbidden => code.Forbidden? || code.AccessDenied? || code.StorageForbidden?
    case CatConflict =>
      || code.Conflict? || code.ConflictingSha256? || code.ObjectSizeImmutable? || code.ObjectChecksumImmutable?
      || code.BulkOverwriteConflict? || code.StorageBucketUnavailable?
    case CatInvalidInput =>
      || code.InvalidInput? || code.RequestFailed? || code.NoValidSha256? || code.AccessMethodsRequired?
      || code.StorageInvalid? || code.StorageUnsupported?
    case CatRateLimited => code.RateLimited?
    case CatUnavailable =>
      || code.Unavailable? || code.BucketNotConfigured? || code.StorageUnavailable? || code.StorageIncomplete?
      || code.StorageProviderError? || code.StorageListingIncomplete?
    case CatInternalError => code.InternalError?
    case _ => false
  }

  lemma CategoriesPartitionCodes(code: ErrorCode, category: ErrorCategory)
    ensures CategoryForCode(code) == Some(category) <==> Belongs(code, category)
  {
  }

  /** The two status tables tell one story, which goes through the code table. */
  lemma StatusTablesAgree(status: int)
    ensures CategoryForCode(CodeForStatus(status)) == Some(CategoryForStatus(status))
  {
  }

  /** The broad codes are exactly the codes an HTTP status can stand for. */
  lemma BroadCodesAreStatusCodes(code: ErrorCode)
    ensures IsBroadCode(code) <==> exists status: int :: CodeForStatus(status) == code
  {
    if IsBroadCode(code) {
      var status :=
        match code
        case NotFound => 404
        case Unauthorized => 401
        case Forbidden => 403
        case Conflict => 409
        case InvalidInput => 400
        case RateLimited => 429
        case Unavailable => 503
        case InternalError => 500
        case _ => 418;
      assert CodeForStatus(status) == code;
    }
  }

  // ---------- error trees ----------

  /**
   What one node of a tree says about itself. `Coded` is any other type with both accessors;
   a nil pointer of one of the two known types is a node that says nothing.
   */
  datatype Class =
    | Silent
    | Coded(code: ErrorCode, category: ErrorCategory)
    | Definition(code: ErrorCode, category: ErrorCategory)
    | NilDefinition
    | Api(code: ErrorCode, category: ErrorCategory)
    | NilApi

  datatype Error = Nil | Error(node: Class, unwrap: Unwrap)

  datatype Unwrap = Leaf | Wrap(cause: Error) | Join(causes: seq<Error>)

  /** The exported sentinels of contract.go. */
  const SENTINELS: seq<Class> := [
    Definition(NotFound, CatNotFound), Definition(Unauthorized, CatUnauthorized), Definition(Forbidden, CatForbidden),
    Definition(Conflict, CatConflict), Definition(InvalidInput, CatInvalidInput),
    Definition(RateLimited, CatRateLimited), Definition(Unavailable, CatUnavailable),
    Definition(ObjectNotFound, CatNotFound), Definition(BucketScopeNotFound, CatNotFound),
    Definition(FileUsageNotFound, CatNotFound), Definition(MultipartUploadNotFound, CatNotFound),
    Definition(NoValidSha256, CatInvalidInput), Definition(ConflictingSha256, CatConflict),
    Definition(AccessMethodsRequired, CatInvalidInput), Definition(ObjectSizeImmutable, CatConflict),
    Definition(ObjectChecksumImmutable, CatConflict), Definition(BulkOverwriteConflict, CatConflict),
    Definition(BucketNotConfigured, CatUnavailable), Definition(ObjectLocationUnavailable, CatNotFound),
    Definition(AuthenticationRequired, CatUnauthorized), Definition(AccessDenied, CatForbidden),
    Definition(StorageInvalid, CatInvalidInput), Definition(StorageNotFound, CatNotFound),
    Definition(StorageForbidden, CatForbidden), Definition(StorageUnavailable, CatUnavailable),
    Definition(StorageIncomplete, CatUnavailable), Definition(StorageUnsupported, CatInvalidInput),
    Definition(StorageProviderError, CatUnavailable), Definition(ProjectScopeNotFound, CatNotFound),
    Definition(StorageCredentialMissing, CatNotFound), Definition(StorageBucketUnavailable, CatConflict),
    Definition(StorageListingIncomplete, CatUnavailable)]

  function CodeIn(c: Class): ErrorCode {
    if c.Coded? || c.Definition? || c.Api? then c.code else NoCode
  }

  function CategoryIn(c: Class): ErrorCategory {
    if c.Coded? || c.Definition? || c.Api? then c.category else NoCategory
  }

  /** The nodes of a tree, parents before children, children in order. */
  function Preorder(err: Error): seq<Class>
    decreases err, 0
  {
    match err
    case Nil => []
    case Error(c, Leaf) => [c]
    case Error(c, Wrap(cause)) => [c] + Preorder(cause)
    case Error(c, Join(causes)) => [c] + PreorderAll(causes)
  }

  function PreorderAll(causes: seq<Error>): seq<Class>
    decreases causes, 1
  {
    if causes == [] then [] else Preorder(causes[0]) + PreorderAll(causes[1..])
  }

  /** The first value other than `none` that the nodes offer, or `none`. */
  function FirstPicked<T(==)>(nodes: seq<Class>, pick: Class -> T, none: T): T {
    if nodes == [] then none
    else if pick(nodes[0]) != none then pick(nodes[0])
    else FirstPicked(nodes[1..], pick, none)
  }

  lemma {:induction false} FirstPickedConcat<T>(a: seq<Class>, b: seq<Class>, pick: Class -> T, none: T)
    ensures FirstPicked(a + b, pick, none) ==
            if FirstPicked(a, pick, none) != none then FirstPicked(a, pick, none) else FirstPicked(b, pick, none)
  {
    if a == [] {
      assert a + b == b;
    } else {
      assert (a + b)[1..] == a[1..] + b;
      FirstPickedConcat(a[1..], b, pick, none);
    }
  }

  /** Which node it is. */
  lemma {:induction false} FirstPickedAt<T>(nodes: seq<Class>, pick: Class -> T, none: T) returns (k: nat)
    ensures k <= |nodes|
    ensures forall i :: 0 <= i < k ==> pick(nodes[i]) == none
    ensures if k < |nodes| then pick(nodes[k]) != none && FirstPicked(nodes, pick, none) == pick(nodes[k])
            else FirstPicked(nodes, pick, none) == none
  {
    if nodes == [] || pick(nodes[0]) != none {
      k := 0;
    } else {
      var j := FirstPickedAt(nodes[1..], pick, none);
      k := j + 1;
      forall i | 0 <= i < k
        ensures pick(nodes[i]) == none
      {
        assert i > 0 ==> nodes[i] == nodes[1..][i - 1];
      }
      assert k < |nodes| ==> nodes[k] == nodes[1..][j];
    }
  }

  /**
   The walk over a tree. `pick` is what the visitor looks at; a visited node that offers
   something ends the walk, and what it offers is captured.
   */
  method VisitErrors<T(==)>(err: Error, pick: Class -> T, none: T) returns (found: bool, captured: T)
    ensures captured == FirstPicked(Preorder(err), pick, none)
    ensures found <==> captured != none
    decreases err
  {
    match err {
      case Nil => return false, none;
      case Error(c, unwrap) =>
        if pick(c) != none {
          return true, pick(c);
        }
        assert ([c] + Preorder(Nil))[1..] == [];
        match unwrap {
          case Leaf => return false, none;
          case Wrap(cause) =>
            found, captured := VisitErrors(cause, pick, none);
            assert ([c] + Preorder(cause))[1..] == Preorder(cause);
          case Join(causes) =>
            for k := 0 to |causes|
              invariant FirstPicked(PreorderAll(causes), pick, none) == FirstPicked(PreorderAll(causes[k..]), pick, none)
            {
              found, captured := VisitErrors(causes[k], pick, none);
              FirstPickedConcat(Preorder(causes[k]), PreorderAll(causes[k + 1..]), pick, none);
              assert causes[k..][1..] == causes[k + 1..];
              assert ([c] + PreorderAll(causes))[1..] == PreorderAll(causes);
              if found {
                return;
              }
            }
            assert causes[|causes|..] == [];
            assert ([c] + PreorderAll(causes))[1..] == PreorderAll(causes);
            return false, none;
        }
    }
  }

  method CodeOf(err: Error) returns (code: ErrorCode, ok: bool)
    ensures code == FirstPicked(Preorder(err), CodeIn, NoCode)
    ensures ok <==> code != NoCode
  {
    var _, captured := VisitErrors(err, CodeIn, NoCode);
    code, ok := captured, captured != NoCode;
  }

  method CategoryOf(err: Error) returns (category: ErrorCategory, ok: bool)
    ensures category == FirstPicked(Preorder(err), CategoryIn, NoCategory)
    ensures ok <==> category != NoCategory
  {
    var _, captured := VisitErrors(err, CategoryIn, NoCategory);
    category, ok := captured, captured != NoCategory;
  }

  /** The node carries both a code and a category, or neither. */
  predicate BothOrNeither(c: Class) {
    CodeIn(c) == NoCode <==> CategoryIn(c) == NoCategory
  }

  /** A listed code comes with the category the code table gives it. */
  predicate Consistent(c: Class) {
    CategoryForCode(CodeIn(c)).Some? ==> CategoryIn(c) == CategoryForCode(CodeIn(c)).value
  }

  /**
   If every node carries both or neither, the code and the category found in a tree come
   from one node, so a listed code and its category agree.
   */
  lemma CodeAndCategoryAgree(err: Error)
    requires forall c :: c in Preorder(err) ==> BothOrNeither(c) && Consistent(c)
    ensures var code := FirstPicked(Preorder(err), CodeIn, NoCode);
            var category := FirstPicked(Preorder(err), CategoryIn, NoCategory);
            && (code == NoCode <==> category == NoCategory)
            && (code != NoCode ==> exists c :: c in Preorder(err) && CodeIn(c) == code && CategoryIn(c) == category)
            && (CategoryForCode(code).Some? ==> category == CategoryForCode(code).value)
  {
    var nodes := Preorder(err);
    var i := FirstPickedAt(nodes, CodeIn, NoCode);
    var j := FirstPickedAt(nodes, CategoryIn, NoCategory);
    assert i < |nodes| ==> nodes[i] in nodes;
    assert j < |nodes| ==> nodes[j] in nodes;
  }

  lemma {:induction false} PreorderAllConcat(a: seq<Error>, b: seq<Error>)
    ensures PreorderAll(a + b) == PreorderAll(a) + PreorderAll(b)
  {
    if a == [] {
      assert a + b == b;
    } else {
      assert (a + b)[1..] == a[1..] + b;
      PreorderAllConcat(a[1..], b);
    }
  }

  /** An error that says something itself is asked first, whatever it wraps. */
  lemma OuterFirst<T>(c: Class, unwrap: Unwrap, pick: Class -> T, none: T)
    requires pick(c) != none
    ensures FirstPicked(Preorder(Error(c, unwrap)), pick, none) == pick(c)
  {
  }

  /** If it says nothing, its cause is asked. */
  lemma CauseNext<T>(c: Class, cause: Error, pick: Class -> T, none: T)
    requires pick(c) == none
    ensures FirstPicked(Preorder(Error(c, Wrap(cause))), pick, none) == FirstPicked(Preorder(cause), pick, none)
    ensures FirstPicked(Preorder(Error(c, Leaf)), pick, none) == none
    ensures FirstPicked(Preorder(Nil), pick, none) == none
  {
    assert Preorder(Error(c, Wrap(cause)))[1..] == Preorder(cause);
  }

  /** Of several causes the first that has something to say anywhere inside it decides, in the order of joining. */
  lemma EarlierCauseFirst<T>(c: Class, before: seq<Error>, cause: Error, after: seq<Error>, pick: Class -> T, none: T)
    requires pick(c) == none && FirstPicked(PreorderAll(before), pick, none) == none
    requires FirstPicked(Preorder(cause), pick, none) != none
    ensures FirstPicked(Preorder(Error(c, Join(before + [cause] + after))), pick, none) ==
            FirstPicked(Preorder(cause), pick, none)
  {
    var causes := before + [cause] + after;
    assert Preorder(Error(c, Join(causes)))[1..] == PreorderAll(causes);
    assert causes == before + ([cause] + after);
    PreorderAllConcat(before, [cause] + after);
    assert ([cause] + after)[1..] == after;
    assert PreorderAll([cause] + after) == Preorder(cause) + PreorderAll(after);
    FirstPickedConcat(PreorderAll(before), PreorderAll([cause] + after), pick, none);
    FirstPickedConcat(Preorder(cause), PreorderAll(after), pick, none);
  }

  // ---------- errors.Is ----------

  /** `(*Definition).Is` and `(*APIError).Is` for a non-nil definition as target; other types have no such method. */
  predicate NodeIs(c: Class, target: Class)
    requires target.Definition?
  {
    match c
    case Definition(code, category) =>
      code == target.code || (IsBroadCode(target.code) && category == target.category)
    case Api(code, category) =>
      var hasCode, hasCategory := target.code != NoCode, target.category != NoCategory;
      if hasCode && code == target.code then true
      else if !hasCategory || category != target.category then false
      else !hasCode || IsBroadCode(target.code)
    case _ => false
  }

  /**
   `errors.Is` walks the tree the same way. Its comparison of pointers adds nothing here: a
   definition is always itself in the sense of `NodeIs`.
   */
  predicate Is(err: Error, target: Class)
    requires target.Definition?
    decreases err
  {
    match err
    case Nil => false
    case Error(c, unwrap) =>
      || NodeIs(c, target)
      || (unwrap.Wrap? && Is(unwrap.cause, target))
      || (unwrap.Join? && exists k :: 0 <= k < |unwrap.causes| && Is(unwrap.causes[k], target))
  }

  lemma {:induction false} PreorderAllNodes(causes: seq<Error>, c: Class)
    ensures c in PreorderAll(causes) <==> exists k :: 0 <= k < |causes| && c in Preorder(causes[k])
  {
    if causes != [] {
      PreorderAllNodes(causes[1..], c);
      if k :| 0 <= k < |causes[1..]| && c in Preorder(causes[1..][k]) {
        assert causes[k + 1] == causes[1..][k];
      }
      if k :| 0 <= k < |causes| && c in Preorder(causes[k]) {
        assert k > 0 ==> causes[1..][k - 1] == causes[k];
      }
    }
  }

  /** The answer depends on the nodes alone. */
  lemma {:induction false} IsMeansSomeNode(err: Error, target: Class)
    requires target.Definition?
    ensures Is(err, target) <==> exists c :: c in Preorder(err) && NodeIs(c, target)
    decreases err
  {
    match err
    case Nil =>
    case Error(c, Leaf) =>
      assert Preorder(err) == [c];
    case Error(c, Wrap(cause)) =>
      IsMeansSomeNode(cause, target);
      assert Preorder(err) == [c] + Preorder(cause);
    case Error(c, Join(causes)) =>
      forall k | 0 <= k < |causes|
        ensures Is(causes[k], target) <==> exists n :: n in Preorder(causes[k]) && NodeIs(n, target)
      {
        IsMeansSomeNode(causes[k], target);
      }
      assert Preorder(err) == [c] + PreorderAll(causes);
      forall n
        ensures n in PreorderAll(causes) <==> exists k :: 0 <= k < |causes| && n in Preorder(causes[k])
      {
        PreorderAllNodes(causes, n);
      }
  }

  /** A target like the exported sentinels: a listed code with its category. */
  predicate Sentinel(target: Class) {
    target.Definition? && CategoryForCode(target.code) == Some(target.category)
  }

  lemma SentinelsAreSentinels(k: nat)
    requires k < |SENTINELS|
    ensures Sentinel(SENTINELS[k])
  {
  }

  predicate HasIs(c: Class) {
    c.Definition? || c.Api?
  }

  /** An exact sentinel is met exactly if some definition or API error in the tree has its code. */
  lemma ExactSentinel(err: Error, target: Class)
    requires Sentinel(target) && !IsBroadCode(target.code)
    ensures Is(err, target) <==> exists c :: c in Preorder(err) && HasIs(c) && CodeIn(c) == target.code
  {
    IsMeansSomeNode(err, target);
    assert forall c :: NodeIs(c, target) <==> HasIs(c) && CodeIn(c) == target.code;
  }

  /**
   A broad sentinel is met exactly if some definition or API error in the tree has its
   category, provided listed codes come with their categories.
   */
  lemma BroadSentinel(err: Error, target: Class)
    requires Sentinel(target) && IsBroadCode(target.code)
    requires forall c :: c in Preorder(err) ==> Consistent(c)
    ensures Is(err, target) <==> exists c :: c in Preorder(err) && HasIs(c) && CategoryIn(c) == target.category
  {
    IsMeansSomeNode(err, target);
    assert forall c :: Consistent(c) ==> (NodeIs(c, target) <==> HasIs(c) && CategoryIn(c) == target.category);
  }

  /** Every definition in a tree replaced by an API error with its code and category. */
  function AsApiErrors(err: Error): Error
    decreases err, 0
  {
    match err
    case Nil => Nil
    case Error(c, unwrap) =>
      Error(
        if c.Definition? then Api(c.code, c.category) else c,
        match unwrap
        case Leaf => Leaf
        case Wrap(cause) => Wrap(AsApiErrors(cause))
        case Join(causes) => Join(AllAsApiErrors(causes)))
  }

  function AllAsApiErrors(causes: seq<Error>): (r: seq<Error>)
    ensures |r| == |causes|
    ensures forall k :: 0 <= k < |causes| ==> r[k] == AsApiErrors(causes[k])
    decreases causes, 1
  {
    if causes == [] then [] else [AsApiErrors(causes[0])] + AllAsApiErrors(causes[1..])
  }

  /** A server-side definition and the client-side API error decoded from it answer alike. */
  lemma {:induction false} DefinitionsAndApiErrorsAlike(err: Error, target: Class)
    requires Sentinel(target)
    ensures Is(AsApiErrors(err), target) == Is(err, target)
    decreases err
  {
    match err
    case Nil =>
    case Error(c, Leaf) =>
    case Error(c, Wrap(cause)) => DefinitionsAndApiErrorsAlike(cause, target);
    case Error(c, Join(causes)) =>
      forall k | 0 <= k < |causes|
        ensures Is(AsApiErrors(causes[k]), target) == Is(causes[k], target)
      {
        DefinitionsAndApiErrorsAlike(causes[k], target);
      }
      var r := AllAsApiErrors(causes);
      assert (exists k :: 0 <= k < |r| && Is(r[k], target)) <==> (exists k :: 0 <= k < |causes| && Is(causes[k], target)) by {
        assert forall k :: 0 <= k < |causes| ==> Is(r[k], target) == Is(causes[k], target);
      }
  }

  /**
   A target without a code, which no exported sentinel is: an API error meets it by category,
   a definition only by having no code either.
   */
  lemma CodelessTarget(code: ErrorCode, category: ErrorCategory, target: Class)
    requires target.Definition? && target.code == NoCode
    ensures NodeIs(Api(code, category), target) <==> target.category != NoCategory && category == target.category
    ensures NodeIs(Definition(code, category), target) <==> code == NoCode
  {
  }
}
