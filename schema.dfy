/** Record shapes of the two tables (users, food entries) and the insert
    payloads that the server accepts for them.

    A payload is the row without the fields the server assigns: a user
    payload has no `id`, a food-entry payload has neither `id` nor
    `createdAt`. `NewUser` and `NewFoodEntry` complete a payload into a row
    (the object spread `{ ...payload, id }` of the store), and `UserPayload`
    and `FoodEntryPayload` are the `.pick` projections back to a payload. */
module Schema {

  /** `T | undefined` of the source. */
  datatype Option<T> = None | Some(value: T)

  /** A point in time, in milliseconds; `Date` values compare by this number. */
  type Timestamp = int

  /** A row of the `users` table; every column is required. */
  datatype User = User(
    id: int,
    age: int,
    gender: string,
    dailyCalorieTarget: int,
    dailyProteinTarget: int)

  /** The user insert payload: the four non-key columns and never an `id`. */
  datatype InsertUser = InsertUser(
    age: int,
    gender: string,
    dailyCalorieTarget: int,
    dailyProteinTarget: int)

  /** A row of the `food_entries` table; every column is required. */
  datatype FoodEntry = FoodEntry(
    id: int,
    userId: int,
    imageUrl: string,
    foodName: string,
    quantity: int,
    unit: string,
    calories: int,
    protein: int,
    createdAt: Timestamp)

  /** The food-entry insert payload: the seven client columns, without the
      server-assigned `id` and `createdAt`. */
  datatype InsertFoodEntry = InsertFoodEntry(
    userId: int,
    imageUrl: string,
    foodName: string,
    quantity: int,
    unit: string,
    calories: int,
    protein: int)

  /** The user payload of a row (`userSchema`'s pick of the four columns). */
  function UserPayload(u: User): InsertUser {
    InsertUser(u.age, u.gender, u.dailyCalorieTarget, u.dailyProteinTarget)
  }

  /** The food-entry payload of a row (`foodEntrySchema`'s pick of seven columns). */
  function FoodEntryPayload(e: FoodEntry): InsertFoodEntry {
    InsertFoodEntry(e.userId, e.imageUrl, e.foodName, e.quantity, e.unit, e.calories, e.protein)
  }

  /** The row stored for payload `data` under key `id`: the payload's fields
      are kept and the key comes from the server. */
  function NewUser(data: InsertUser, id: int): (u: User)
    ensures u.id == id
    ensures UserPayload(u) == data
    ensures forall v: User :: v.id == id && UserPayload(v) == data ==> v == u
  {
    User(id, data.age, data.gender, data.dailyCalorieTarget, data.dailyProteinTarget)
  }

  /** The row stored for payload `data` with key `id`, stamped at `createdAt`. */
  function NewFoodEntry(data: InsertFoodEntry, id: int, createdAt: Timestamp): (e: FoodEntry)
    ensures e.id == id && e.createdAt == createdAt
    ensures FoodEntryPayload(e) == data
    ensures forall f: FoodEntry :: f.id == id && f.createdAt == createdAt && FoodEntryPayload(f) == data ==> f == e
  {
    FoodEntry(id, data.userId, data.imageUrl, data.foodName, data.quantity, data.unit,
              data.calories, data.protein, createdAt)
  }
}
