/** clientJobPostController.js over the `ClientJobPost` and `RequiredWorker`
    collections (ClientJobPostSchema.js, clientRequiredWorkersSchema.js):
    creating a post with its workers, listing a client's posts a page at a
    time, and the owner-only update and delete. */
module ClientJobPosts {
  import opened Common
  import opened Crypto
  import opened JobRequests

  type PostId = nat
  type WorkerId = nat

  const Cities: set<string> := {"Hyderabad", "Bangalore", "Chennai", "Delhi", "Mumbai"}
  const Statuses: set<string> := {"open", "closed", "paused"}
  const WorkerTypes: set<string> := {"mason", "helper", "electrician", "plumber", "carpenter", "painter", "other"}

  /** A job post. `details` is the owning client; `pinCode` is not a schema
      path, so it is never stored. */
  datatype JobPost = JobPost(
    id: PostId,
    details: UserId,
    title: string,
    description: Option<string>,
    city: string,
    location: string,
    status: string,
    contactPhone: Option<string>,
    startDate: Option<int>,
    endDate: Option<int>,
    requiredWorkers: seq<WorkerId>)

  /** A required-worker record; `jobDetails` is the post it belongs to. */
  datatype RequiredWorker = RequiredWorker(
    id: WorkerId,
    jobDetails: PostId,
    workerType: string,
    count: int,
    status: string,
    clientId: UserId)

  /** The post schema's validators: a title that is not empty once trimmed,
      a city and a status from their enums, a location. */
  predicate PostSchemaValid(p: JobPost) {
    p.title != "" && p.city in Cities && p.location != "" && p.status in Statuses
  }

  /** The worker schema's validators: a type from the enum, `count >= 1`. */
  predicate WorkerSchemaValid(w: RequiredWorker) {
    w.workerType in WorkerTypes && w.count >= 1 && w.status in Statuses
  }

  /** Whether `insertMany` accepts the workers built from these entries: it
      validates every document and inserts none if one fails. */
  predicate Insertable(specs: seq<WorkerSpec>) {
    forall i :: 0 <= i < |specs| ==> specs[i].workerType in WorkerTypes && specs[i].count >= 1
  }

  /** `first, first + 1, ..., first + n - 1`: the ids `insertMany` hands out, in input order. */
  function IdRange(first: nat, n: nat): (ids: seq<nat>)
    ensures |ids| == n && forall i :: 0 <= i < n ==> ids[i] == first + i
    ensures forall k :: k in ids <==> first <= k < first + n
  {
    if n == 0 then [] else IdRange(first, n - 1) + [first + n - 1]
  }

  /** The records `insertMany` creates: one per entry, in order, each open,
      pointing at the post and carrying the client. */
  function WorkerRecords(specs: seq<WorkerSpec>, first: WorkerId, post: PostId, clientId: UserId): (m: map<WorkerId, RequiredWorker>)
    ensures forall k :: k in m <==> first <= k < first + |specs|
    ensures forall k :: k in m ==>
      && m[k] == RequiredWorker(k, post, specs[k - first].workerType, specs[k - first].count, "open", clientId)
  {
    map k | k in IdRange(first, |specs|) :: RequiredWorker(k, post, specs[k - first].workerType, specs[k - first].count, "open", clientId)
  }

  /** `RequiredWorker.deleteMany({ jobDetails: post })`. */
  function WorkersOtherThan(workers: map<WorkerId, RequiredWorker>, post: PostId): (m: map<WorkerId, RequiredWorker>)
    ensures forall k :: k in m <==> k in workers && workers[k].jobDetails != post
    ensures forall k :: k in m ==> m[k] == workers[k]
  {
    map k | k in workers && workers[k].jobDetails != post :: workers[k]
  }

  /** The two collections, with the next ids `create` and `insertMany` hand out. */
  class JobStore {
    var posts: map<PostId, JobPost>
    var workers: map<WorkerId, RequiredWorker>
    var nextPostId: PostId
    var nextWorkerId: WorkerId

    /** Every document is filed under its own id, ids are never reused, and
        every stored document passed its schema. */
    ghost predicate Valid()
      reads this
      ensures Valid() ==> nextPostId !in posts && nextWorkerId !in workers
    {
      && (forall id :: id in posts ==> posts[id].id == id && id < nextPostId && PostSchemaValid(posts[id]))
      && (forall id :: id in workers ==> workers[id].id == id && id < nextWorkerId && WorkerSchemaValid(workers[id]))
    }

    constructor ()
      ensures Valid() && posts == map[] && workers == map[]
    {
      posts := map[];
      workers := map[];
      nextPostId := 0;
      nextWorkerId := 0;
    }

    /** `ClientJobPost.create(doc)`: the document under a fresh id when it
        passes the schema; otherwise it throws and nothing is stored. */
    method CreatePost(doc: JobPost) returns (created: Option<JobPost>)
      requires Valid()
      modifies this
      ensures Valid()
      ensures created.Some? <==> PostSchemaValid(doc)
      ensures created.Some? ==>
        && created.value == doc.(id := old(nextPostId))
        && posts == old(posts)[created.value.id := created.value]
        && nextPostId == old(nextPostId) + 1
        && workers == old(workers) && nextWorkerId == old(nextWorkerId)
      ensures created.None? ==> unchanged(this)
    {
      if !PostSchemaValid(doc) {
        return None;
      }
      var post := doc.(id := nextPostId);
      posts := posts[post.id := post];
      nextPostId := nextPostId + 1;
      created := Some(post);
    }

    /** `RequiredWorker.insertMany(...)`: all the records under fresh,
        consecutive ids, or, when one fails the schema, an error and none. */
    method InsertWorkers(specs: seq<WorkerSpec>, post: PostId, clientId: UserId) returns (ids: Option<seq<WorkerId>>)
      requires Valid()
      modifies this`workers, this`nextWorkerId
      ensures Valid()
      ensures ids.Some? <==> Insertable(specs)
      ensures ids.Some? ==>
        && ids.value == IdRange(old(nextWorkerId), |specs|)
        && workers == old(workers) + WorkerRecords(specs, old(nextWorkerId), post, clientId)
        && nextWorkerId == old(nextWorkerId) + |specs|
      ensures ids.None? ==> workers == old(workers) && nextWorkerId == old(nextWorkerId)
    {
      if !Insertable(specs) {
        return None;
      }
      var first := nextWorkerId;
      workers := workers + WorkerRecords(specs, first, post, clientId);
      nextWorkerId := first + |specs|;
      ids := Some(IdRange(first, |specs|));
    }

    /** `RequiredWorker.deleteMany({ jobDetails: post })`. */
    method DeleteWorkersOf(post: PostId)
      requires Valid()
      modifies this`workers
      ensures Valid()
      ensures workers == WorkersOtherThan(old(workers), post)
    {
      workers := WorkersOtherThan(workers, post);
    }

    /** `jobPost.save()` for a post already on file: stored when it passes
        the schema, otherwise it throws and the stored post stays as it was. */
    method SavePost(post: JobPost) returns (saved: bool)
      requires Valid() && post.id in posts
      modifies this`posts
      ensures Valid()
      ensures saved <==> PostSchemaValid(post)
      ensures posts == if saved then old(posts)[post.id := post] else old(posts)
    {
      saved := PostSchemaValid(post);
      if saved {
        posts := posts[post.id := post];
      }
    }

    /** `ClientJobPost.deleteOne({ _id: post })`. */
    method DeletePost(post: PostId)
      requires Valid()
      modifies this`posts
      ensures Valid()
      ensures posts == old(posts) - {post}
    {
      posts := posts - {post};
    }
  }

  /** Storing twice under one key keeps only the second value. */
  lemma OverwriteTwice(m: map<PostId, JobPost>, k: PostId, a: JobPost, b: JobPost)
    ensures m[k := a][k := b] == m[k := b]
  {
  }

  /** Every worker record on file asks for at least one worker of one of the
      types the schema allows. */
  lemma {:induction false} StoredWorkersValid(store: JobStore)
    requires store.Valid()
    ensures forall w :: w in store.workers.Values ==> w.count >= 1 && w.workerType in WorkerTypes
  {
    forall w | w in store.workers.Values
      ensures w.count >= 1 && w.workerType in WorkerTypes
    {
      var id :| id in store.workers && store.workers[id] == w;
    }
  }

  /** The request body of a create or an update; `None` is a field that was
      not sent. */
  datatype JobPostBody = JobPostBody(
    title: Option<string>,
    description: Option<string>,
    city: Option<string>,
    location: Option<string>,
    startDate: Option<string>,
    endDate: Option<string>,
    requiredWorkers: WorkersField,
    pinCode: Option<string>,
    status: Option<string>)

  /** The `:id` route parameter: an ObjectId, or text that is not one. */
  datatype JobIdParam = ObjectId(id: PostId) | Malformed

  datatype JobReply = JobReply(status: int, message: string, post: Option<JobPost>)

  /** What passed validation: the worker entries (`None` when an update
      leaves them alone) and the parsed dates. */
  datatype Draft = Draft(workers: Option<seq<WorkerSpec>>, dates: DateRange)

  predicate NonEmptyArray(f: WorkersField) {
    f.Entries? && |f.items| > 0
  }

  predicate CreateFieldsGiven(body: JobPostBody) {
    Truthy(body.title) && Truthy(body.city) && Truthy(body.location) && Truthy(body.pinCode)
  }

  /** The records built for a worker array pass the worker schema exactly
      when `insertMany` accepts the entries: the handler's loop leaves the
      type unchecked and lets a fractional count below one through. */
  lemma {:induction false} WorkerRecordsSchemaValid(specs: seq<WorkerSpec>, first: WorkerId, post: PostId, clientId: UserId)
    ensures (forall k :: k in WorkerRecords(specs, first, post, clientId) ==>
               WorkerSchemaValid(WorkerRecords(specs, first, post, clientId)[k]))
            <==> Insertable(specs)
  {
    var m := WorkerRecords(specs, first, post, clientId);
    if forall k :: k in m ==> WorkerSchemaValid(m[k]) {
      forall i | 0 <= i < |specs|
        ensures specs[i].workerType in WorkerTypes && specs[i].count >= 1
      {
        assert first + i in m && WorkerSchemaValid(m[first + i]);
      }
    }
  }

  /** The 400 ladder of `createJobPost`, in source order: title, city,
      location, pin code, a non-empty worker array, each entry, then the dates. */
  function CreateCheck(body: JobPostBody): (r: Result<Draft, string>)
    ensures !Truthy(body.title) ==> r == Err("Title is required")
    ensures Truthy(body.title) && !Truthy(body.city) ==> r == Err("City is required")
    ensures Truthy(body.title) && Truthy(body.city) && !Truthy(body.location) ==> r == Err("Location is required")
    ensures (Truthy(body.title) && Truthy(body.city) && Truthy(body.location) && !Truthy(body.pinCode)) ==>
      r == Err("Pin code is required")
    ensures CreateFieldsGiven(body) && !NonEmptyArray(body.requiredWorkers) ==>
      r == Err("At least one required worker is required")
    ensures (CreateFieldsGiven(body) && NonEmptyArray(body.requiredWorkers)
             && CheckWorkers(body.requiredWorkers.items).Err?) ==>
      r == Err(WorkerMessage(CheckWorkers(body.requiredWorkers.items).error))
    ensures (CreateFieldsGiven(body) && NonEmptyArray(body.requiredWorkers)
             && CheckWorkers(body.requiredWorkers.items).Ok? && CheckDates(body.startDate, body.endDate).Err?) ==>
      r == Err(CheckDates(body.startDate, body.endDate).error)
    ensures r.Ok? <==>
      && CreateFieldsGiven(body) && NonEmptyArray(body.requiredWorkers)
      && CheckWorkers(body.requiredWorkers.items).Ok? && CheckDates(body.startDate, body.endDate).Ok?
    ensures r.Ok? ==>
      r.value == Draft(Some(CheckWorkers(body.requiredWorkers.items).value), CheckDates(body.startDate, body.endDate).value)
  {
    if !Truthy(body.title) then Err("Title is required")
    else if !Truthy(body.city) then Err("City is required")
    else if !Truthy(body.location) then Err("Location is required")
    else if !Truthy(body.pinCode) then Err("Pin code is required")
    else if !NonEmptyArray(body.requiredWorkers) then Err("At least one required worker is required")
    else match CheckWorkers(body.requiredWorkers.items)
      case Err(rej) => Err(WorkerMessage(rej))
      case Ok(specs) =>
        match CheckDates(body.startDate, body.endDate)
        case Err(m) => Err(m)
        case Ok(dates) => Ok(Draft(Some(specs), dates))
  }

  /** The checks `createJobPost` makes before touching the database, one
      after the other as the handler makes them. */
  method ValidateCreateBody(body: JobPostBody) returns (r: Result<Draft, string>)
    ensures r == CreateCheck(body)
  {
    if !Truthy(body.title) {
      return Err("Title is required");
    }
    if !Truthy(body.city) {
      return Err("City is required");
    }
    if !Truthy(body.location) {
      return Err("Location is required");
    }
    if !Truthy(body.pinCode) {
      return Err("Pin code is required");
    }
    if !NonEmptyArray(body.requiredWorkers) {
      return Err("At least one required worker is required");
    }
    var checked := ValidateWorkers(body.requiredWorkers.items);
    if checked.Err? {
      return Err(WorkerMessage(checked.error));
    }
    var dates := CheckDates(body.startDate, body.endDate);
    if dates.Err? {
      return Err(dates.error);
    }
    r := Ok(Draft(Some(checked.value), dates.value));
  }

  /** The post `createJobPost` hands to `create`: owned by the requester,
      title trimmed by the schema, status "open", the requester's phone as
      contact, no workers yet. */
  function NewPost(owner: UserId, body: JobPostBody, dates: DateRange, phone: Option<string>): (p: JobPost)
    requires CreateFieldsGiven(body)
    ensures p.details == owner && p.status == "open" && p.requiredWorkers == []
    ensures p.title == Trim(body.title.value) && p.city == body.city.value && p.location == body.location.value
    ensures p.startDate == dates.start && p.endDate == dates.end && p.contactPhone == phone
  {
    JobPost(0, owner, Trim(body.title.value), body.description, body.city.value, body.location.value,
            "open", phone, dates.start, dates.end, [])
  }

  /** A body that passed the create ladder still fails the post schema
      (and `create` answers 500) exactly when its title is blank once trimmed
      or its city is not one of the five the schema allows. */
  lemma {:induction false} NewPostSchemaValid(owner: UserId, body: JobPostBody, dates: DateRange, phone: Option<string>)
    requires CreateFieldsGiven(body)
    ensures PostSchemaValid(NewPost(owner, body, dates, phone)) <==>
      Trim(body.title.value) != "" && body.city.value in Cities
  {
  }

  /** The database half of `createJobPost`: `create` the post (500 and
      nothing stored if it fails its schema), `insertMany` its workers (500 if
      one fails its schema, the post staying on file with no workers), then
      `save` the post with the workers' ids in input order (201). */
  method StoreJobPost(store: JobStore, doc: JobPost, specs: seq<WorkerSpec>, clientId: UserId) returns (reply: JobReply)
    requires store.Valid()
    modifies store
    ensures store.Valid()
    ensures
      var post := doc.(id := old(store.nextPostId));
      if !PostSchemaValid(post) then
        reply == JobReply(500, "Error creating job post with workers", None) && unchanged(store)
      else if !Insertable(specs) then
        && reply == JobReply(500, "Error creating job post with workers", None)
        && store.posts == old(store.posts)[post.id := post] && store.nextPostId == post.id + 1
        && store.workers == old(store.workers) && store.nextWorkerId == old(store.nextWorkerId)
      else
        var first := old(store.nextWorkerId);
        var saved := post.(requiredWorkers := IdRange(first, |specs|));
        && reply == JobReply(201, "Job post created", Some(saved))
        && store.posts == old(store.posts)[post.id := saved] && store.nextPostId == post.id + 1
        && store.workers == old(store.workers) + WorkerRecords(specs, first, post.id, clientId)
        && store.nextWorkerId == first + |specs|
  {
    ghost var created := doc.(id := store.nextPostId);
    ghost var postsBefore := store.posts;
    var jobPost := store.CreatePost(doc);
    if jobPost.None? {
      return JobReply(500, "Error creating job post with workers", None);
    }
    assert jobPost.value == created && store.posts == postsBefore[created.id := created];
    var createdWorkers := store.InsertWorkers(specs, jobPost.value.id, clientId);
    if createdWorkers.None? {
      return JobReply(500, "Error creating job post with workers", None);
    }
    var post := jobPost.value.(requiredWorkers := createdWorkers.value);
    assert post.id in store.posts && PostSchemaValid(post);
    var saved := store.SavePost(post);
    assert saved;
    OverwriteTwice(postsBefore, created.id, created, post);
    reply := JobReply(201, "Job post created", Some(post));
  }

  /** `createJobPost`. 401 without an `id` claim, before any field is looked
      at; the 400 ladder; then the post is created (500 if it fails its
      schema, nothing stored), then its workers (500 if one fails its
      schema: the post stays on file with no workers), then the post is
      saved with the workers' ids in input order (201). */
  method CreateJobPost(store: JobStore, user: Claims, body: JobPostBody) returns (reply: JobReply)
    requires store.Valid()
    modifies store
    ensures store.Valid()
    ensures user.id.None? ==> reply == JobReply(401, "Unauthorized: user not found in token", None) && unchanged(store)
    ensures user.id.Some? && CreateCheck(body).Err? ==>
      reply == JobReply(400, CreateCheck(body).error, None) && unchanged(store)
    ensures user.id.Some? && CreateCheck(body).Ok? ==>
      var specs := CreateCheck(body).value.workers.value;
      var post := NewPost(user.id.value, body, CreateCheck(body).value.dates, user.phone).(id := old(store.nextPostId));
      if !PostSchemaValid(post) then
        reply == JobReply(500, "Error creating job post with workers", None) && unchanged(store)
      else if !Insertable(specs) then
        && reply == JobReply(500, "Error creating job post with workers", None)
        && store.posts == old(store.posts)[post.id := post] && store.nextPostId == post.id + 1
        && store.workers == old(store.workers) && store.nextWorkerId == old(store.nextWorkerId)
      else
        var first := old(store.nextWorkerId);
        var saved := post.(requiredWorkers := IdRange(first, |specs|));
        && reply == JobReply(201, "Job post created", Some(saved))
        && store.posts == old(store.posts)[post.id := saved] && store.nextPostId == post.id + 1
        && store.workers == old(store.workers) + WorkerRecords(specs, first, post.id, user.id.value)
        && store.nextWorkerId == first + |specs|
  {
    if user.id.None? {
      return JobReply(401, "Unauthorized: user not found in token", None);
    }
    var clientId := user.id.value;
    var checked := ValidateCreateBody(body);
    if checked.Err? {
      return JobReply(400, checked.error, None);
    }
    var specs := checked.value.workers.value;
    var dates := checked.value.dates;
    reply := StoreJobPost(store, NewPost(clientId, body, dates, user.phone), specs, clientId);
  }

  /** A worker entry whose count is below one passes validation but is
      floored to 0, which the worker schema's `min: 1` refuses: a create
      with such an entry stores the post and answers 500. */
  lemma {:induction false} FractionalCountFailsInsert(t: string, c: real)
    requires t != "" && 0.0 < c < 1.0
    ensures CheckWorkers([WorkerObject(Some(t), Finite(c))]).Ok?
    ensures !Insertable(CheckWorkers([WorkerObject(Some(t), Finite(c))]).value)
  {
    FractionalCountBecomesZero(t, c);
  }

  /** A field of an update is either not sent or not empty. */
  predicate SentNotEmpty(f: Option<string>) {
    f.None? || Truthy(f)
  }

  /** The update's four field rungs pass. */
  predicate UpdateFieldsOk(body: JobPostBody) {
    SentNotEmpty(body.title) && SentNotEmpty(body.city) && SentNotEmpty(body.location) && SentNotEmpty(body.pinCode)
  }

  /** The 400 ladder of `updateJobPostById`: a field that is sent must not be
      empty (title, city, location, pin code), a `requiredWorkers` that is
      sent must be a non-empty array whose entries pass, and the dates. */
  function UpdateCheck(body: JobPostBody): (r: Result<Draft, string>)
    ensures body.title.Some? && !Truthy(body.title) ==> r == Err("Title cannot be empty")
    ensures SentNotEmpty(body.title) && body.city.Some? && !Truthy(body.city) ==> r == Err("City cannot be empty")
    ensures SentNotEmpty(body.title) && SentNotEmpty(body.city) && body.location.Some? && !Truthy(body.location) ==>
      r == Err("Location cannot be empty")
    ensures (SentNotEmpty(body.title) && SentNotEmpty(body.city) && SentNotEmpty(body.location)
             && body.pinCode.Some? && !Truthy(body.pinCode)) ==> r == Err("Pin code cannot be empty")
    ensures UpdateFieldsOk(body) && !body.requiredWorkers.Absent? && !NonEmptyArray(body.requiredWorkers) ==>
      r == Err("requiredWorkers must be a non-empty array when provided")
    ensures UpdateFieldsOk(body) && NonEmptyArray(body.requiredWorkers) && CheckWorkers(body.requiredWorkers.items).Err? ==>
      r == Err(WorkerMessage(CheckWorkers(body.requiredWorkers.items).error))
    ensures (UpdateFieldsOk(body)
             && (body.requiredWorkers.Absent? || (NonEmptyArray(body.requiredWorkers) && CheckWorkers(body.requiredWorkers.items).Ok?))
             && CheckDates(body.startDate, body.endDate).Err?) ==>
      r == Err(CheckDates(body.startDate, body.endDate).error)
    ensures r.Ok? <==>
      && (body.title.None? || Truthy(body.title)) && (body.city.None? || Truthy(body.city))
      && (body.location.None? || Truthy(body.location)) && (body.pinCode.None? || Truthy(body.pinCode))
      && (body.requiredWorkers.Absent?
          || (NonEmptyArray(body.requiredWorkers) && CheckWorkers(body.requiredWorkers.items).Ok?))
      && CheckDates(body.startDate, body.endDate).Ok?
    ensures r.Ok? ==>
      && r.value.dates == CheckDates(body.startDate, body.endDate).value
      && r.value.workers == (if body.requiredWorkers.Absent? then None
                             else Some(CheckWorkers(body.requiredWorkers.items).value))
  {
    if body.title.Some? && !Truthy(body.title) then Err("Title cannot be empty")
    else if body.city.Some? && !Truthy(body.city) then Err("City cannot be empty")
    else if body.location.Some? && !Truthy(body.location) then Err("Location cannot be empty")
    else if body.pinCode.Some? && !Truthy(body.pinCode) then Err("Pin code cannot be empty")
    else
      var workers: Result<Option<seq<WorkerSpec>>, string> :=
        if body.requiredWorkers.Absent? then Ok(None)
        else if !NonEmptyArray(body.requiredWorkers) then Err("requiredWorkers must be a non-empty array when provided")
        else match CheckWorkers(body.requiredWorkers.items)
          case Err(rej) => Err(WorkerMessage(rej))
          case Ok(specs) => Ok(Some(specs));
      if workers.Err? then Err(workers.error)
      else match CheckDates(body.startDate, body.endDate)
        case Err(m) => Err(m)
        case Ok(dates) => Ok(Draft(workers.value, dates))
  }

  /** The checks `updateJobPostById` makes before looking the post up, one
      after the other as the handler makes them. */
  method ValidateUpdateBody(body: JobPostBody) returns (r: Result<Draft, string>)
    ensures r == UpdateCheck(body)
  {
    if body.title.Some? && !Truthy(body.title) {
      return Err("Title cannot be empty");
    }
    if body.city.Some? && !Truthy(body.city) {
      return Err("City cannot be empty");
    }
    if body.location.Some? && !Truthy(body.location) {
      return Err("Location cannot be empty");
    }
    if body.pinCode.Some? && !Truthy(body.pinCode) {
      return Err("Pin code cannot be empty");
    }
    var specs: Option<seq<WorkerSpec>> := None;
    if !body.requiredWorkers.Absent? {
      if !NonEmptyArray(body.requiredWorkers) {
        return Err("requiredWorkers must be a non-empty array when provided");
      }
      var checked := ValidateWorkers(body.requiredWorkers.items);
      if checked.Err? {
        return Err(WorkerMessage(checked.error));
      }
      specs := Some(checked.value);
    }
    var dates := CheckDates(body.startDate, body.endDate);
    if dates.Err? {
      return Err(dates.error);
    }
    r := Ok(Draft(specs, dates.value));
  }

  /** `Object.assign(jobPost, update)` followed by the contact phone: every
      field that was sent replaces the stored one (the title trimmed by the
      schema, `pinCode` dropped), a date only when it was given and parsed,
      and the phone only when the token carries one. Id, owner and worker
      list are untouched. */
  function Edited(p: JobPost, body: JobPostBody, dates: DateRange, phone: Option<string>): (q: JobPost)
    ensures q.id == p.id && q.details == p.details && q.requiredWorkers == p.requiredWorkers
    ensures q.title == (if body.title.Some? then Trim(body.title.value) else p.title)
    ensures q.description == (if body.description.Some? then body.description else p.description)
    ensures q.city == (if body.city.Some? then body.city.value else p.city)
    ensures q.location == (if body.location.Some? then body.location.value else p.location)
    ensures q.status == (if body.status.Some? then body.status.value else p.status)
    ensures q.startDate == (if dates.start.Some? then dates.start else p.startDate)
    ensures q.endDate == (if dates.end.Some? then dates.end else p.endDate)
    ensures q.contactPhone == (if phone.Some? then phone else p.contactPhone)
  {
    p.(title := if body.title.Some? then Trim(body.title.value) else p.title,
       description := if body.description.Some? then body.description else p.description,
       city := if body.city.Some? then body.city.value else p.city,
       location := if body.location.Some? then body.location.value else p.location,
       status := if body.status.Some? then body.status.value else p.status,
       startDate := if dates.start.Some? then dates.start else p.startDate,
       endDate := if dates.end.Some? then dates.end else p.endDate,
       contactPhone := if phone.Some? then phone else p.contactPhone)
  }

  /** Sending the same update twice stores what sending it once does. */
  lemma {:induction false} EditIdempotent(p: JobPost, body: JobPostBody, dates: DateRange, phone: Option<string>)
    ensures Edited(Edited(p, body, dates, phone), body, dates, phone) == Edited(p, body, dates, phone)
  {
    if body.title.Some? {
      TrimIdempotent(body.title.value);
    }
  }

  /** `updateJobPostById`. 401 without an `id` claim; the 400 ladder; a
      malformed id makes `findById` throw (500); 404 for an unknown post; 403
      for a post of another client; each of these leaves both collections
      as they were. For the owner the sent fields are applied; when workers
      are sent the post's old workers are deleted and the new ones inserted
      before the post is saved, so an insert that fails (500) leaves the post
      with no workers on file, and a save that fails (500) leaves the new
      workers stored and the post as it was. */
  method UpdateJobPostById(store: JobStore, user: Claims, jobId: JobIdParam, body: JobPostBody) returns (reply: JobReply)
    requires store.Valid()
    modifies store
    ensures store.Valid()
    ensures user.id.None? ==> reply == JobReply(401, "Unauthorized", None) && unchanged(store)
    ensures user.id.Some? && UpdateCheck(body).Err? ==>
      reply == JobReply(400, UpdateCheck(body).error, None) && unchanged(store)
    ensures user.id.Some? && UpdateCheck(body).Ok? && jobId.Malformed? ==>
      reply == JobReply(500, "Server error", None) && unchanged(store)
    ensures user.id.Some? && UpdateCheck(body).Ok? && jobId.ObjectId? && jobId.id !in old(store.posts) ==>
      reply == JobReply(404, "Job post not found", None) && unchanged(store)
    ensures (user.id.Some? && UpdateCheck(body).Ok? && jobId.ObjectId? && jobId.id in old(store.posts)
             && old(store.posts)[jobId.id].details != user.id.value) ==>
      reply == JobReply(403, "Forbidden: you can only update your own job posts", None) && unchanged(store)
    ensures (user.id.Some? && UpdateCheck(body).Ok? && jobId.ObjectId? && jobId.id in old(store.posts)
             && old(store.posts)[jobId.id].details == user.id.value) ==>
      var draft := UpdateCheck(body).value;
      var edited := Edited(old(store.posts)[jobId.id], body, draft.dates, user.phone);
      && store.nextPostId == old(store.nextPostId)
      && OwnerUpdateOutcome(old(store.posts), old(store.workers), old(store.nextWorkerId),
                            store.posts, store.workers, store.nextWorkerId,
                            edited, draft.workers, user.id.value, reply)
  {
    if user.id.None? {
      return JobReply(401, "Unauthorized", None);
    }
    var clientId := user.id.value;
    var checked := ValidateUpdateBody(body);
    if checked.Err? {
      return JobReply(400, checked.error, None);
    }
    var specs := checked.value.workers;
    var dates := checked.value.dates;
    if jobId.Malformed? {
      return JobReply(500, "Server error", None);
    }
    if jobId.id !in store.posts {
      return JobReply(404, "Job post not found", None);
    }
    var jobPost := store.posts[jobId.id];
    if jobPost.details != clientId {
      return JobReply(403, "Forbidden: you can only update your own job posts", None);
    }
    reply := SaveEditedPost(store, Edited(jobPost, body, dates, user.phone), specs, clientId);
  }

  /** What the owner's update leaves behind, from the collections before
      (`posts`, `workers`, `next`) to those after (`posts'`, `workers'`,
      `next'`): without new entries only the edited post is saved; with new
      entries the post's old workers are deleted first, then the new ones
      are inserted (or, when one fails its schema, none, with 500 and the
      post unsaved), then the post is saved pointing at them. A post that
      fails its schema on `save` is left as it was, with 500. */
  ghost predicate OwnerUpdateOutcome(
    posts: map<PostId, JobPost>, workers: map<WorkerId, RequiredWorker>, next: WorkerId,
    posts': map<PostId, JobPost>, workers': map<WorkerId, RequiredWorker>, next': WorkerId,
    edited: JobPost, newWorkers: Option<seq<WorkerSpec>>, clientId: UserId, reply: JobReply)
  {
    match newWorkers
    case None =>
      && workers' == workers && next' == next
      && if PostSchemaValid(edited) then
           reply == JobReply(200, "Job post updated", Some(edited)) && posts' == posts[edited.id := edited]
         else
           reply == JobReply(500, "Server error", None) && posts' == posts
    case Some(specs) =>
      var kept := WorkersOtherThan(workers, edited.id);
      if !Insertable(specs) then
        && reply == JobReply(500, "Server error", None)
        && posts' == posts && workers' == kept && next' == next
      else
        var replaced := edited.(requiredWorkers := IdRange(next, |specs|));
        && workers' == kept + WorkerRecords(specs, next, edited.id, clientId)
        && next' == next + |specs|
        && if PostSchemaValid(replaced) then
             reply == JobReply(200, "Job post updated", Some(replaced)) && posts' == posts[edited.id := replaced]
           else
             reply == JobReply(500, "Server error", None) && posts' == posts
  }

  /** The database half of the owner's update: replace the workers when
      new entries were sent, then `save` the edited post. */
  method SaveEditedPost(store: JobStore, edited: JobPost, specs: Option<seq<WorkerSpec>>, clientId: UserId)
    returns (reply: JobReply)
    requires store.Valid() && edited.id in store.posts
    modifies store
    ensures store.Valid()
    ensures store.nextPostId == old(store.nextPostId)
    ensures OwnerUpdateOutcome(old(store.posts), old(store.workers), old(store.nextWorkerId),
                               store.posts, store.workers, store.nextWorkerId, edited, specs, clientId, reply)
  {
    var jobPost := edited;
    if specs.Some? {
      store.DeleteWorkersOf(jobPost.id);
      var createdWorkers := store.InsertWorkers(specs.value, jobPost.id, clientId);
      if createdWorkers.None? {
        return JobReply(500, "Server error", None);
      }
      jobPost := jobPost.(requiredWorkers := createdWorkers.value);
    }
    var saved := store.SavePost(jobPost);
    if !saved {
      return JobReply(500, "Server error", None);
    }
    reply := JobReply(200, "Job post updated", Some(jobPost));
  }

  /** `deleteClientJobPostById`. 401 without an `id` claim, 400 for a
      malformed id, 404 for an unknown post, 403 for a post of another
      client, each leaving both collections as they were; otherwise the
      post's workers and then the post are deleted (204). */
  method DeleteClientJobPostById(store: JobStore, user: Claims, jobId: JobIdParam) returns (reply: JobReply)
    requires store.Valid()
    modifies store
    ensures store.Valid()
    ensures user.id.None? ==> reply == JobReply(401, "Unauthorized", None) && unchanged(store)
    ensures user.id.Some? && jobId.Malformed? ==> reply == JobReply(400, "Invalid job id", None) && unchanged(store)
    ensures user.id.Some? && jobId.ObjectId? && jobId.id !in old(store.posts) ==>
      reply == JobReply(404, "Job post not found", None) && unchanged(store)
    ensures (user.id.Some? && jobId.ObjectId? && jobId.id in old(store.posts)
             && old(store.posts)[jobId.id].details != user.id.value) ==>
      reply == JobReply(403, "Forbidden: you can only delete your own job posts", None) && unchanged(store)
    ensures (user.id.Some? && jobId.ObjectId? && jobId.id in old(store.posts)
             && old(store.posts)[jobId.id].details == user.id.value) ==>
      && reply == JobReply(204, "", None)
      && store.posts == old(store.posts) - {jobId.id}
      && store.workers == WorkersOtherThan(old(store.workers), jobId.id)
      && store.nextPostId == old(store.nextPostId) && store.nextWorkerId == old(store.nextWorkerId)
  {
    if user.id.None? {
      return JobReply(401, "Unauthorized", None);
    }
    if jobId.Malformed? {
      return JobReply(400, "Invalid job id", None);
    }
    if jobId.id !in store.posts {
      return JobReply(404, "Job post not found", None);
    }
    var jobPost := store.posts[jobId.id];
    if jobPost.details != user.id.value {
      return JobReply(403, "Forbidden: you can only delete your own job posts", None);
    }
    store.DeleteWorkersOf(jobPost.id);
    store.DeletePost(jobPost.id);
    reply := JobReply(204, "", None);
  }

  /** The query of `getClientJobPosts`. `search` is the compiled regular
      expression applied to the searched fields, present when the `search`
      parameter is non-empty. */
  datatype ListQuery = ListQuery(
    page: Option<string>,
    limit: Option<string>,
    status: Option<string>,
    city: Option<string>,
    search: Option<JobPost -> bool>)

  /** The filter the listing runs. The owner condition and the search are
      both an `$or`, and spreading the filters over the owner query lets the
      search's `$or` replace the owner's: with a search, posts of every
      client are eligible. */
  predicate Selected(p: JobPost, clientId: UserId, q: ListQuery): (b: bool)
    ensures q.search.None? && b ==> p.details == clientId
    ensures q.search.None? && !Truthy(q.status) && !Truthy(q.city) ==> (b <==> p.details == clientId)
    ensures b && Truthy(q.status) ==> p.status == q.status.value
    ensures b && Truthy(q.city) ==> p.city == q.city.value
    ensures b && q.search.Some? ==> q.search.value(p)
  {
    && (q.search.Some? || p.details == clientId)
    && (!Truthy(q.status) || p.status == q.status.value)
    && (!Truthy(q.city) || p.city == q.city.value)
    && (q.search.None? || q.search.value(p))
  }

  /** The selected posts with ids below `n`, newest (highest id) first. */
  function Listed(posts: map<PostId, JobPost>, n: nat, clientId: UserId, q: ListQuery): (r: seq<JobPost>)
    requires forall id :: id in posts ==> posts[id].id == id
    ensures forall i :: 0 <= i < |r| ==> r[i].id < n && r[i].id in posts && posts[r[i].id] == r[i] && Selected(r[i], clientId, q)
    ensures forall i, j :: 0 <= i < j < |r| ==> r[i].id > r[j].id
    ensures forall id :: 0 <= id < n && id in posts && Selected(posts[id], clientId, q) ==> posts[id] in r
  {
    if n == 0 then []
    else
      var rest := Listed(posts, n - 1, clientId, q);
      if n - 1 in posts && Selected(posts[n - 1], clientId, q) then [posts[n - 1]] + rest else rest
  }

  /** `.skip(skip).limit(limit)`. */
  function Window(items: seq<JobPost>, skip: nat, limit: nat): (w: seq<JobPost>)
    ensures |w| <= limit
    ensures forall i :: 0 <= i < |w| ==> skip + i < |items| && w[i] == items[skip + i]
    ensures |w| == if skip >= |items| then 0 else if skip + limit <= |items| then limit else |items| - skip
  {
    if skip >= |items| then []
    else if skip + limit >= |items| then items[skip..]
    else items[skip..skip + limit]
  }

  datatype Meta = Meta(total: nat, page: Option<int>, limit: Option<int>, pages: int)

  datatype ListReply = ListReply(status: int, message: string, meta: Option<Meta>, data: Option<seq<JobPost>>)

  /** `getClientJobPosts`: 401 without an `id` claim; otherwise the count of
      every selected post, the pagination of the query, and the page of
      selected posts newest first. Where `page` or `limit` is NaN the data
      the database would return is not modelled (`None`). */
  function GetClientJobPosts(store: JobStore, user: Claims, q: ListQuery): (r: ListReply)
    reads store
    requires store.Valid()
    ensures user.id.None? <==> r == ListReply(401, "Unauthorized", None, None)
    ensures user.id.Some? ==> r.status == 200 && r.meta.Some?
    ensures user.id.Some? ==>
      var all := Listed(store.posts, store.nextPostId, user.id.value, q);
      var p := Paginate(q.page, q.limit, |all|);
      && r.meta.value == Meta(|all|, p.page, p.limit, p.pages)
      && (r.data.Some? <==> p.skip.Some?)
      && (r.data.Some? ==> r.data.value == Window(all, p.skip.value, p.limit.value))
  {
    if user.id.None? then ListReply(401, "Unauthorized", None, None)
    else
      var all := Listed(store.posts, store.nextPostId, user.id.value, q);
      var p := Paginate(q.page, q.limit, |all|);
      var data := if p.skip.Some? then Some(Window(all, p.skip.value, p.limit.value)) else None;
      ListReply(200, "Client job posts fetched", Some(Meta(|all|, p.page, p.limit, p.pages)), data)
  }

  /** Without a search only the requester's own posts are listed; with one,
      any client's post the search matches is. */
  lemma {:induction false} ListingOwnershipDependsOnSearch(posts: map<PostId, JobPost>, n: nat, clientId: UserId, q: ListQuery, id: PostId)
    requires forall k :: k in posts ==> posts[k].id == k
    requires id < n && id in posts
    requires (!Truthy(q.status) || posts[id].status == q.status.value) && (!Truthy(q.city) || posts[id].city == q.city.value)
    ensures q.search.None? ==> (posts[id] in Listed(posts, n, clientId, q) <==> posts[id].details == clientId)
    ensures q.search.Some? && q.search.value(posts[id]) ==> posts[id] in Listed(posts, n, clientId, q)
  {
    var r := Listed(posts, n, clientId, q);
    if q.search.None? && posts[id] in r {
      var i :| 0 <= i < |r| && r[i] == posts[id];
      assert Selected(r[i], clientId, q);
    }
  }
}
