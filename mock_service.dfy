/** The persistence and identity layer. The browser's local storage holds six slots
    (`tw_spots`, `tw_hotels`, `tw_cars`, `tw_posts`, `tw_user_session`, `tw_users_db`); a slot that
    was never written is `None`. Each service call is one atomic step: its meaning is a pure
    transition over a snapshot of the slots (`Slots`), and the `Store` class performs it in place. */
module MockService {
  import opened Wrappers
  import opened Entities
  import Seqs
  import Text

  /** A snapshot of the six storage slots. */
  datatype Slots = Slots(
    spots: Option<seq<Spot>>,
    hotels: Option<seq<Hotel>>,
    cars: Option<seq<Car>>,
    posts: Option<seq<Post>>,
    session: Option<User>,
    users: Option<seq<User>>)

  /** The default collections shipped with the application (their contents are not part of the model). */
  datatype Seed = Seed(spots: seq<Spot>, hotels: seq<Hotel>, cars: seq<Car>)

  /** What a login or signup returns, together with the storage afterwards. */
  datatype Outcome = Outcome(result: Result<User>, after: Slots)

  const AdminUser: User := User("admin1", "Admin User", "admin@tripwise.pk", AdminRole, None)
  const AdminError: string := "Invalid Admin credentials (Try: admin@tripwise.pk)"
  const SignupError: string := "User already exists"

  /** The two posts written on first run; their timestamps are relative to the clock reading `now`. */
  function SeedPosts(now: int): seq<Post> {
    [ Post("1", "u1", "Ali Khan", "Just visited Hunza! The apricots are amazing.", None, 12, now - 100000, Some("Hunza Valley")),
      Post("2", "u2", "Sara Ahmed", "Gwadar sunset is unbeatable.", None, 45, now - 5000000, Some("Gwadar Port")) ]
  }

  // ---- Reads: an absent slot reads as the empty collection ----

  function SpotsOf(s: Slots): seq<Spot> { s.spots.GetOr([]) }
  function HotelsOf(s: Slots): seq<Hotel> { s.hotels.GetOr([]) }
  function CarsOf(s: Slots): seq<Car> { s.cars.GetOr([]) }
  function PostsOf(s: Slots): seq<Post> { s.posts.GetOr([]) }
  function UsersOf(s: Slots): seq<User> { s.users.GetOr([]) }

  // ---- Seeding ----

  /** `initializeData`: every absent slot except the session gets its default; present slots are kept. */
  function Initialized(s: Slots, seed: Seed, now: int): (r: Slots)
    ensures r.spots.Some? && r.hotels.Some? && r.cars.Some? && r.posts.Some? && r.users.Some?
    ensures s.spots.Some? ==> r.spots == s.spots
    ensures s.hotels.Some? ==> r.hotels == s.hotels
    ensures s.cars.Some? ==> r.cars == s.cars
    ensures s.posts.Some? ==> r.posts == s.posts
    ensures s.users.Some? ==> r.users == s.users
    ensures s.spots.None? ==> r.spots == Some(seed.spots)
    ensures s.hotels.None? ==> r.hotels == Some(seed.hotels)
    ensures s.cars.None? ==> r.cars == Some(seed.cars)
    ensures s.posts.None? ==> r.posts == Some(SeedPosts(now))
    ensures s.users.None? ==> r.users == Some([AdminUser])
    ensures r.session == s.session
  {
    Slots(
      if s.spots.None? then Some(seed.spots) else s.spots,
      if s.hotels.None? then Some(seed.hotels) else s.hotels,
      if s.cars.None? then Some(seed.cars) else s.cars,
      if s.posts.None? then Some(SeedPosts(now)) else s.posts,
      s.session,
      if s.users.None? then Some([AdminUser]) else s.users)
  }

  /** Seeding a second time, with any defaults and any clock reading, changes nothing. */
  lemma InitializeIdempotent(s: Slots, seed: Seed, now: int, seed': Seed, now': int)
    ensures Initialized(Initialized(s, seed, now), seed', now') == Initialized(s, seed, now)
  {
  }

  /** On first run the directory holds exactly the administrator `admin1`, `admin@tripwise.pk`. */
  lemma {:induction false} FirstRunDirectory(s: Slots, seed: Seed, now: int)
    requires s.users.None?
    ensures var d := UsersOf(Initialized(s, seed, now));
      |d| == 1 && d[0].id == "admin1" && d[0].email == "admin@tripwise.pk" && d[0].role == AdminRole
  {
  }

  // ---- Identity ----

  /** `users.find(u => u.email === email && u.role === role)`, as a position. */
  function FindAccount(users: seq<User>, email: string, role: Role): (r: Option<nat>)
    ensures r.None? <==> forall k :: 0 <= k < |users| ==> !(users[k].email == email && users[k].role == role)
    ensures r.Some? ==> r.value < |users| && users[r.value].email == email && users[r.value].role == role
    ensures r.Some? ==> forall k :: 0 <= k < r.value ==> !(users[k].email == email && users[k].role == role)
  {
    Seqs.FirstIndex(users, (u: User) => u.email == email && u.role == role)
  }

  /** `users.find(u => u.email === email)`, whatever the role. */
  function FindEmail(users: seq<User>, email: string): (r: Option<nat>)
    ensures r.None? <==> forall k :: 0 <= k < |users| ==> users[k].email != email
    ensures r.Some? ==> r.value < |users| && users[r.value].email == email
    ensures r.Some? ==> forall k :: 0 <= k < r.value ==> users[k].email != email
  {
    Seqs.FirstIndex(users, (u: User) => u.email == email)
  }

  /** The record a standard login creates for an unknown email: its name is the text before the first `@`. */
  function NewStandardUser(email: string, freshId: string): (u: User)
    ensures u.email == email && u.role == UserRole && u.id == freshId
    ensures u.name <= email && '@' !in u.name
    ensures |u.name| < |email| ==> email[|u.name|] == '@'
  {
    User(freshId, Text.BeforeFirst(email, '@'), email, UserRole, None)
  }

  /** `login(email, isAdminAttempt)`. `freshId` stands for the random id of a new record. */
  function LoginStep(s: Slots, email: string, isAdminAttempt: bool, freshId: string): (o: Outcome)
    // administrator mode succeeds exactly when an admin record with that email exists
    ensures isAdminAttempt ==>
      (o.result.Success? <==> exists k :: 0 <= k < |UsersOf(s)| && UsersOf(s)[k].email == email && UsersOf(s)[k].role == AdminRole)
    ensures isAdminAttempt && o.result.Success? ==>
      o.result.value in UsersOf(s) && o.result.value.email == email && o.result.value.role == AdminRole &&
      o.after == s.(session := Some(o.result.value))
    // ... and it is the first such record, as `find` returns
    ensures isAdminAttempt && o.result.Success? ==>
      FindAccount(UsersOf(s), email, AdminRole).Some? &&
      o.result.value == UsersOf(s)[FindAccount(UsersOf(s), email, AdminRole).value]
    ensures isAdminAttempt && o.result.Failure? ==> o.after == s && o.result.error == AdminError
    // standard mode always succeeds, with a `user` record for that email
    ensures !isAdminAttempt ==>
      o.result.Success? && o.result.value.email == email && o.result.value.role == UserRole &&
      o.after == s.(session := Some(o.result.value), users := o.after.users)
    ensures !isAdminAttempt && FindAccount(UsersOf(s), email, UserRole).None? ==>
      o.result.value == NewStandardUser(email, freshId) && o.after.users == Some(UsersOf(s) + [o.result.value])
    ensures !isAdminAttempt && FindAccount(UsersOf(s), email, UserRole).Some? ==>
      o.result.value == UsersOf(s)[FindAccount(UsersOf(s), email, UserRole).value] && o.after.users == s.users
  {
    var users := UsersOf(s);
    if isAdminAttempt then
      match FindAccount(users, email, AdminRole)
      case Some(k) => Outcome(Success(users[k]), s.(session := Some(users[k])))
      case None => Outcome(Failure(AdminError), s)
    else
      match FindAccount(users, email, UserRole)
      case Some(k) => Outcome(Success(users[k]), s.(session := Some(users[k])))
      case None =>
        var u := NewStandardUser(email, freshId);
        Outcome(Success(u), s.(users := Some(users + [u]), session := Some(u)))
  }

  /** Appending a record that does not match keeps the first match where it was. */
  lemma FindAccountAppend(users: seq<User>, u: User, email: string, role: Role)
    requires FindAccount(users, email, role).Some?
    ensures FindAccount(users + [u], email, role) == FindAccount(users, email, role)
  {
    var i := FindAccount(users, email, role).value;
    var j := FindAccount(users + [u], email, role);
    assert (users + [u])[i] == users[i];
    assert j.Some?;
    assert j.value <= i;
  }

  /** A second standard login with the same email appends nothing and returns the same record. */
  lemma {:induction false} SecondLoginAppendsNothing(s: Slots, email: string, id1: string, id2: string)
    ensures var o1 := LoginStep(s, email, false, id1);
      var o2 := LoginStep(o1.after, email, false, id2);
      o2.after.users == o1.after.users && o2.result == o1.result && o2.after == o1.after
  {
    var users := UsersOf(s);
    var o1 := LoginStep(s, email, false, id1);
    match FindAccount(users, email, UserRole)
    case Some(k) =>
      assert UsersOf(o1.after) == users;
    case None =>
      var u := NewStandardUser(email, id1);
      assert UsersOf(o1.after) == users + [u];
      var j := FindAccount(users + [u], email, UserRole);
      assert (users + [u])[|users|] == u;
      assert j.Some?;
      assert j.value == |users|;
  }

  /** The email keys are not unique across roles: a standard login with the administrator's email
      adds a second record with that email. */
  lemma AdminEmailStandardLogin(s: Slots, freshId: string)
    requires UsersOf(s) == [AdminUser]
    ensures var o := LoginStep(s, "admin@tripwise.pk", false, freshId);
      UsersOf(o.after) == [AdminUser, NewStandardUser("admin@tripwise.pk", freshId)] &&
      o.result.value.role == UserRole
  {
    assert FindAccount([AdminUser], "admin@tripwise.pk", UserRole).None?;
  }

  /** From the seeded directory the administrator email logs in in administrator mode, and a
      different email is refused. */
  lemma SeededAdminLogin(s: Slots, other: string, freshId: string)
    requires UsersOf(s) == [AdminUser]
    requires other != "admin@tripwise.pk"
    ensures LoginStep(s, "admin@tripwise.pk", true, freshId).result == Success(AdminUser)
    ensures LoginStep(s, other, true, freshId) == Outcome(Failure(AdminError), s)
  {
    assert UsersOf(s)[0] == AdminUser;
  }

  /** `signup(name, email)`: refused when any record has that email, whatever its role. */
  function SignupStep(s: Slots, name: string, email: string, freshId: string): (o: Outcome)
    ensures o.result.Failure? <==> exists k :: 0 <= k < |UsersOf(s)| && UsersOf(s)[k].email == email
    ensures o.result.Failure? ==> o.after == s && o.result.error == SignupError
    ensures o.result.Success? ==>
      o.result.value == User(freshId, name, email, UserRole, None) &&
      o.after == s.(users := Some(UsersOf(s) + [o.result.value]), session := Some(o.result.value))
  {
    var users := UsersOf(s);
    if FindEmail(users, email).Some? then Outcome(Failure(SignupError), s)
    else
      var u := User(freshId, name, email, UserRole, None);
      Outcome(Success(u), s.(users := Some(users + [u]), session := Some(u)))
  }

  /** After a successful signup the same email can neither sign up again nor create a second
      record by logging in: the login returns the signed-up record. */
  lemma {:induction false} SignupThenSameEmail(s: Slots, name: string, name': string, email: string, id1: string, id2: string)
    requires SignupStep(s, name, email, id1).result.Success?
    ensures var after := SignupStep(s, name, email, id1).after;
      SignupStep(after, name', email, id2) == Outcome(Failure(SignupError), after) &&
      LoginStep(after, email, false, id2) ==
        Outcome(SignupStep(s, name, email, id1).result, after)
  {
    var o := SignupStep(s, name, email, id1);
    var users := UsersOf(s);
    var u := o.result.value;
    assert UsersOf(o.after) == users + [u];
    assert (users + [u])[|users|] == u;
    var j := FindAccount(users + [u], email, UserRole);
    assert j.Some?;
    assert j.value == |users|;
  }

  /** `logout`: the session slot is emptied; nothing else changes. */
  function LogoutStep(s: Slots): (r: Slots)
    ensures r.session.None?
    ensures r.(session := s.session) == s
  {
    s.(session := None)
  }

  /** The session lifecycle: whatever logged in, a logout leaves no current user. */
  lemma LoginThenLogout(s: Slots, email: string, isAdminAttempt: bool, freshId: string)
    ensures LogoutStep(LoginStep(s, email, isAdminAttempt, freshId).after).session.None?
    ensures LoginStep(s, email, isAdminAttempt, freshId).result.Success? ==>
      LoginStep(s, email, isAdminAttempt, freshId).after.session == Some(LoginStep(s, email, isAdminAttempt, freshId).result.value)
  {
  }

  // ---- Hotels and cars ----

  /** `hotels.findIndex(h => h.id === id)`. */
  function HotelIndex(hotels: seq<Hotel>, id: string): (r: Option<nat>)
    ensures r.None? <==> forall k :: 0 <= k < |hotels| ==> hotels[k].id != id
    ensures r.Some? ==> r.value < |hotels| && hotels[r.value].id == id
    ensures r.Some? ==> forall k :: 0 <= k < r.value ==> hotels[k].id != id
  {
    Seqs.FirstIndex(hotels, (h: Hotel) => h.id == id)
  }

  /** `cars.findIndex(c => c.id === id)`. */
  function CarIndex(cars: seq<Car>, id: string): (r: Option<nat>)
    ensures r.None? <==> forall k :: 0 <= k < |cars| ==> cars[k].id != id
    ensures r.Some? ==> r.value < |cars| && cars[r.value].id == id
    ensures r.Some? ==> forall k :: 0 <= k < r.value ==> cars[k].id != id
  {
    Seqs.FirstIndex(cars, (c: Car) => c.id == id)
  }

  /** `updateHotel(h)`: the first hotel with `h`'s id becomes `h`; an unknown id writes nothing. */
  function UpdateHotelStep(s: Slots, h: Hotel): (r: Slots)
    ensures HotelIndex(HotelsOf(s), h.id).None? ==> r == s
    ensures HotelIndex(HotelsOf(s), h.id).Some? ==>
      var i := HotelIndex(HotelsOf(s), h.id).value;
      r == s.(hotels := r.hotels) && r.hotels.Some? &&
      |r.hotels.value| == |HotelsOf(s)| && r.hotels.value[i] == h &&
      forall k :: 0 <= k < |HotelsOf(s)| && k != i ==> r.hotels.value[k] == HotelsOf(s)[k]
  {
    var hotels := HotelsOf(s);
    match HotelIndex(hotels, h.id)
    case None => s
    case Some(i) => s.(hotels := Some(hotels[i := h]))
  }

  /** `updateCar(c)`: the first car with `c`'s id becomes `c`; an unknown id writes nothing. */
  function UpdateCarStep(s: Slots, c: Car): (r: Slots)
    ensures CarIndex(CarsOf(s), c.id).None? ==> r == s
    ensures CarIndex(CarsOf(s), c.id).Some? ==>
      var i := CarIndex(CarsOf(s), c.id).value;
      r == s.(cars := r.cars) && r.cars.Some? &&
      |r.cars.value| == |CarsOf(s)| && r.cars.value[i] == c &&
      forall k :: 0 <= k < |CarsOf(s)| && k != i ==> r.cars.value[k] == CarsOf(s)[k]
  {
    var cars := CarsOf(s);
    match CarIndex(cars, c.id)
    case None => s
    case Some(i) => s.(cars := Some(cars[i := c]))
  }

  /** Reading the hotels back after an update of a known id finds exactly `h` under its id. */
  lemma UpdateHotelRoundTrip(s: Slots, h: Hotel)
    requires exists k :: 0 <= k < |HotelsOf(s)| && HotelsOf(s)[k].id == h.id
    ensures var after := HotelsOf(UpdateHotelStep(s, h));
      HotelIndex(after, h.id) == HotelIndex(HotelsOf(s), h.id) &&
      after[HotelIndex(after, h.id).value] == h
  {
    var i := HotelIndex(HotelsOf(s), h.id).value;
    var after := HotelsOf(UpdateHotelStep(s, h));
    var j := HotelIndex(after, h.id);
    assert after[i].id == h.id;
    assert j.Some? && j.value <= i;
  }

  /** Reading the cars back after an update of a known id finds exactly `c` under its id. */
  lemma UpdateCarRoundTrip(s: Slots, c: Car)
    requires exists k :: 0 <= k < |CarsOf(s)| && CarsOf(s)[k].id == c.id
    ensures var after := CarsOf(UpdateCarStep(s, c));
      CarIndex(after, c.id) == CarIndex(CarsOf(s), c.id) &&
      after[CarIndex(after, c.id).value] == c
  {
    var i := CarIndex(CarsOf(s), c.id).value;
    var after := CarsOf(UpdateCarStep(s, c));
    var j := CarIndex(after, c.id);
    assert after[i].id == c.id;
    assert j.Some? && j.value <= i;
  }

  // ---- Posts ----

  /** The post `createPost` builds: the caller's fields, the fresh id, no likes, the clock reading. */
  function NewPost(draft: PostDraft, freshId: string, now: int): (p: Post)
    ensures p.id == freshId && p.likes == 0 && p.timestamp == now
    ensures p.userId == draft.userId && p.userName == draft.userName && p.content == draft.content
    ensures p.image == draft.image && p.locationTag == draft.locationTag
  {
    Post(freshId, draft.userId, draft.userName, draft.content, draft.image, 0, now, draft.locationTag)
  }

  /** `createPost`: the new post goes in front of the stored ones (newest first). */
  function CreatePostStep(s: Slots, draft: PostDraft, freshId: string, now: int): (r: Slots)
    ensures r.posts.Some? && |r.posts.value| == |PostsOf(s)| + 1
    ensures r.posts.value[0] == NewPost(draft, freshId, now)
    ensures r.posts.value[1..] == PostsOf(s)
    ensures r == s.(posts := r.posts)
  {
    s.(posts := Some([NewPost(draft, freshId, now)] + PostsOf(s)))
  }

  /** Two posts in a row read back newest first, ahead of the older ones. */
  lemma {:induction false} PostsNewestFirst(s: Slots, d1: PostDraft, d2: PostDraft, id1: string, id2: string, t1: int, t2: int)
    ensures PostsOf(CreatePostStep(CreatePostStep(s, d1, id1, t1), d2, id2, t2)) ==
      [NewPost(d2, id2, t2), NewPost(d1, id1, t1)] + PostsOf(s)
  {
    var p1 := PostsOf(CreatePostStep(s, d1, id1, t1));
    assert p1 == [NewPost(d1, id1, t1)] + PostsOf(s);
    assert [NewPost(d2, id2, t2)] + p1 == [NewPost(d2, id2, t2), NewPost(d1, id1, t1)] + PostsOf(s);
  }

  /** The storage itself, updated in place by the service calls. */
  class Store {
    var spots: Option<seq<Spot>>
    var hotels: Option<seq<Hotel>>
    var cars: Option<seq<Car>>
    var posts: Option<seq<Post>>
    var session: Option<User>
    var users: Option<seq<User>>

    /** The current contents of the six slots. */
    function State(): Slots
      reads this
    {
      Slots(spots, hotels, cars, posts, session, users)
    }

    /** A browser profile whose storage holds none of the six keys. */
    constructor ()
      ensures State() == Slots(None, None, None, None, None, None)
    {
      spots, hotels, cars, posts, session, users := None, None, None, None, None, None;
    }

    method InitializeData(seed: Seed, now: int)
      modifies this
      ensures State() == Initialized(old(State()), seed, now)
    {
      if spots.None? { spots := Some(seed.spots); }
      if hotels.None? { hotels := Some(seed.hotels); }
      if cars.None? { cars := Some(seed.cars); }
      if posts.None? { posts := Some(SeedPosts(now)); }
      if users.None? { users := Some([AdminUser]); }
    }

    method Login(email: string, isAdminAttempt: bool, freshId: string) returns (r: Result<User>)
      modifies this
      ensures Outcome(r, State()) == LoginStep(old(State()), email, isAdminAttempt, freshId)
    {
      var directory := UsersOf(State());
      if isAdminAttempt {
        var found := FindAccount(directory, email, AdminRole);
        if found.Some? {
          session := Some(directory[found.value]);
          return Success(directory[found.value]);
        }
        return Failure(AdminError);
      }
      var found := FindAccount(directory, email, UserRole);
      var user: User;
      if found.None? {
        user := NewStandardUser(email, freshId);
        directory := directory + [user];
        users := Some(directory);
      } else {
        user := directory[found.value];
      }
      session := Some(user);
      r := Success(user);
    }

    method Signup(name: string, email: string, freshId: string) returns (r: Result<User>)
      modifies this
      ensures Outcome(r, State()) == SignupStep(old(State()), name, email, freshId)
    {
      var directory := UsersOf(State());
      if FindEmail(directory, email).Some? {
        return Failure(SignupError);
      }
      var newUser := User(freshId, name, email, UserRole, None);
      directory := directory + [newUser];
      users := Some(directory);
      session := Some(newUser);
      r := Success(newUser);
    }

    method Logout()
      modifies this
      ensures State() == LogoutStep(old(State()))
    {
      session := None;
    }

    /** `getCurrentUser`: the session record, or nothing when logged out. */
    function GetCurrentUser(): (u: Option<User>)
      reads this
      ensures u.Some? <==> State().session.Some?
      ensures u.Some? ==> u.value == State().session.value
    {
      session
    }

    /** `getSpots`: the stored spots, or none when the slot is absent. */
    function GetSpots(): (r: seq<Spot>)
      reads this
      ensures spots.None? ==> r == []
      ensures spots.Some? ==> r == spots.value
    {
      SpotsOf(State())
    }

    /** `getHotels`: the stored hotels, or none when the slot is absent. */
    function GetHotels(): (r: seq<Hotel>)
      reads this
      ensures hotels.None? ==> r == []
      ensures hotels.Some? ==> r == hotels.value
    {
      HotelsOf(State())
    }

    /** `getCars`: the stored cars, or none when the slot is absent. */
    function GetCars(): (r: seq<Car>)
      reads this
      ensures cars.None? ==> r == []
      ensures cars.Some? ==> r == cars.value
    {
      CarsOf(State())
    }

    /** `getCommunityPosts`: the stored posts, or none when the slot is absent. */
    function GetCommunityPosts(): (r: seq<Post>)
      reads this
      ensures posts.None? ==> r == []
      ensures posts.Some? ==> r == posts.value
    {
      PostsOf(State())
    }

    method UpdateHotel(updated: Hotel)
      modifies this
      ensures State() == UpdateHotelStep(old(State()), updated)
    {
      var list := GetHotels();
      var index := HotelIndex(list, updated.id);
      if index.Some? {
        list := list[index.value := updated];
        hotels := Some(list);
      }
    }

    method UpdateCar(updated: Car)
      modifies this
      ensures State() == UpdateCarStep(old(State()), updated)
    {
      var list := GetCars();
      var index := CarIndex(list, updated.id);
      if index.Some? {
        list := list[index.value := updated];
        cars := Some(list);
      }
    }

    method CreatePost(draft: PostDraft, freshId: string, now: int)
      modifies this
      ensures State() == CreatePostStep(old(State()), draft, freshId, now)
    {
      var existing := GetCommunityPosts();
      var newPost := NewPost(draft, freshId, now);
      posts := Some([newPost] + existing);
    }
  }
}
