/** The records the application stores and displays. Numeric fields that the model never computes
    with (ratings, coordinates) are kept as reals; prices, likes, counts and timestamps are integers. */
module Entities {
  import opened Wrappers

  /** A destination. `region` is one of the seven province or territory names. */
  datatype Spot = Spot(
    id: string,
    name: string,
    region: string,
    description: string,
    imageUrl: string,
    tags: seq<string>,
    rating: real,
    lat: real,
    lng: real,
    amenities: seq<string>,
    reviews: int)

  /** A hotel; `pricePerNight` is the field administrators edit. */
  datatype Hotel = Hotel(
    id: string,
    name: string,
    location: string,
    pricePerNight: int,
    rating: real,
    imageUrl: string,
    amenities: seq<string>)

  /** A rental vehicle; `carType` is one of SUV, Sedan, 4x4, Van; `pricePerDay` is editable. */
  datatype Car = Car(
    id: string,
    model: string,
    carType: string,
    pricePerDay: int,
    imageUrl: string,
    features: seq<string>)

  /** A community feed entry; `timestamp` is in milliseconds. */
  datatype Post = Post(
    id: string,
    userId: string,
    userName: string,
    content: string,
    image: Option<string>,
    likes: int,
    timestamp: int,
    locationTag: Option<string>)

  /** The fields a caller supplies to `createPost`: a post without id, likes and timestamp. */
  datatype PostDraft = PostDraft(
    userId: string,
    userName: string,
    content: string,
    image: Option<string>,
    locationTag: Option<string>)

  datatype Role = UserRole | AdminRole

  /** A directory entry; `email` is the lookup key. */
  datatype User = User(
    id: string,
    name: string,
    email: string,
    role: Role,
    avatar: Option<string>)
}
