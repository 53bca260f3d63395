/**
 * The record shapes of the application: users, comments and notes,
 * and the small wrapper types the rest of the model uses.
 */
module Types {

  /** A value that may be missing (TypeScript's `T | undefined` or `T | null`). */
  datatype Option<+T> = None | Some(value: T)

  /** The outcome of an operation that can throw: a value, or the error's message. */
  datatype Result<+T> = Ok(value: T) | Err(message: string)

  /** The three account roles. */
  datatype Role = Student | Author | Admin

  /** An account identity. */
  datatype User = User(id: string, name: string, email: string, role: Role, avatar: string)

  /** A reply attached to a note, carrying a snapshot of its author. */
  datatype Comment = Comment(
    id: string,
    userId: string,
    userName: string,
    userAvatar: string,
    content: string,
    createdAt: string)

  /**
   * A price. The application handles prices as floating-point numbers; this
   * model keeps one opaque, as the decimal text it was written or typed as.
   */
  datatype Price = Price(text: string)

  /** A shareable study note. Counters are JSON numbers, so they are `int` here. */
  datatype Note = Note(
    id: string,
    title: string,
    description: string,
    content: string,
    course: string,
    year: string,
    subject: string,
    tags: seq<string>,
    thumbnail: string,
    author: User,
    downloads: int,
    likes: int,
    isPremium: bool,
    price: Option<Price>,
    createdAt: string,
    comments: seq<Comment>,
    fileData: Option<string>,
    fileName: Option<string>,
    mimeType: Option<string>)

  /** The data-model invariant: a price is present exactly on premium notes. */
  predicate PriceIffPremium(n: Note) {
    n.price.Some? <==> n.isPremium
  }

  /** Both social counters are non-negative. */
  predicate CountersNonNegative(n: Note) {
    n.downloads >= 0 && n.likes >= 0
  }

  /** JavaScript truthiness of an optional string: present and not empty. */
  predicate Truthy(o: Option<string>) {
    o.Some? && o.value != ""
  }
}
