/** The database tables the server actions touch, held in one object whose
    fields the actions update: users, portfolios, posts, one-time codes and
    the server-side session rows. Rows carry only the columns the actions use. */
module Db {
  import opened Common

  datatype User = User(id: string, email: string, username: string, passwordHash: string, name: string, surname: string)

  /** An `oTP` row: the code as text and its expiry instant in milliseconds. */
  datatype OtpRow = OtpRow(code: string, expiresAtMs: int)

  datatype PostRow = PostRow(id: string, imgUrl: string, description: Option<string>, title: string,
                             tags: string, userId: string, upvotes: int)

  class Database {
    /** Users in the order the database scans them. */
    var users: seq<User>
    /** The owner of each portfolio row. */
    var portfolios: seq<string>
    var posts: seq<PostRow>
    /** The `oTP` table, unique on email. */
    var otps: map<string, OtpRow>
    /** The owner of each row of the server-side `session` table. */
    var sessionRows: seq<string>

    constructor (users: seq<User>, posts: seq<PostRow>, otps: map<string, OtpRow>, sessionRows: seq<string>)
      ensures this.users == users && this.posts == posts && this.otps == otps && this.sessionRows == sessionRows
      ensures portfolios == []
    {
      this.users := users;
      this.portfolios := [];
      this.posts := posts;
      this.otps := otps;
      this.sessionRows := sessionRows;
    }
  }
}
