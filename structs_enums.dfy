/** The struct and enum samples: `Rectangle` and its methods, `User`
    construction and struct-update syntax, and `unwrap_or` on an `Option`. */
module StructsEnums {
  import opened Ints
  import opened Wrappers

  // ---------------------------------------------------------------------------
  // Rectangle

  /** A `Rectangle` with `u32` sides; `double_size` changes it in place. */
  class Rectangle {
    var width: uint32
    var height: uint32

    /** `Rectangle::new` */
    constructor New(width: uint32, height: uint32)
      ensures this.width == width && this.height == height
    {
      this.width := width;
      this.height := height;
    }

    /** `Rectangle::square` */
    constructor Square(size: uint32)
      ensures width == size && height == size
    {
      width := size;
      height := size;
    }

    /** `width * height` panics on `u32` overflow in a debug build. */
    predicate AreaFits()
      reads this
    {
      IsUint32(width as int * height as int)
    }

    /** `area` */
    function Area(): (a: uint32)
      requires AreaFits()
      reads this
      ensures a as int == width as int * height as int
    {
      width * height
    }

    /** `can_hold`: strictly wider and strictly taller. */
    function CanHold(other: Rectangle): (r: bool)
      reads this, other
      ensures r <==> width > other.width && height > other.height
    {
      width > other.width && height > other.height
    }

    /** `double_size`: both `*= 2` steps panic on `u32` overflow. */
    method DoubleSize()
      requires IsUint32(width as int * 2) && IsUint32(height as int * 2)
      modifies this
      ensures width as int == old(width) as int * 2 && height as int == old(height) as int * 2
      ensures width as int * height as int == 4 * (old(width) as int * old(height) as int)
    {
      width := width * 2;
      height := height * 2;
    }
  }

  /** No rectangle can hold itself, and holding is transitive. */
  lemma CanHoldOrder(a: Rectangle, b: Rectangle, c: Rectangle)
    ensures !a.CanHold(a)
    ensures a.CanHold(b) ==> !b.CanHold(a)
    ensures a.CanHold(b) && b.CanHold(c) ==> a.CanHold(c)
  {
  }

  /** The calls of the methods sample. */
  method RectangleDemo() returns (area1: uint32, holds2: bool, holds3: bool,
                                  squareArea: uint32, doubledWidth: uint32, doubledHeight: uint32)
    ensures area1 == 1500 && holds2 && !holds3
    ensures squareArea == 625
    ensures doubledWidth == 20 && doubledHeight == 40
  {
    var rect1 := new Rectangle.New(30, 50);
    area1 := rect1.Area();
    var rect2 := new Rectangle.New(10, 40);
    var rect3 := new Rectangle.New(60, 45);
    holds2 := rect1.CanHold(rect2);
    holds3 := rect1.CanHold(rect3);
    var square := new Rectangle.Square(25);
    squareArea := square.Area();
    var rect := new Rectangle.New(10, 20);
    rect.DoubleSize();
    doubledWidth, doubledHeight := rect.width, rect.height;
  }

  // ---------------------------------------------------------------------------
  // User

  datatype User = User(active: bool, username: string, email: string, signInCount: uint64)

  /** `build_user`: a new, active user with one sign-in. */
  function BuildUser(email: string, username: string): (u: User)
    ensures u.active && u.signInCount == 1
    ensures u.email == email && u.username == username
  {
    User(true, username, email, 1)
  }

  /** `User { email, ..base }`: every field but `email` comes from `base`. */
  function WithEmail(base: User, email: string): (u: User)
    ensures u.email == email
    ensures u.active == base.active && u.username == base.username
    ensures u.signInCount == base.signInCount
  {
    base.(email := email)
  }

  /** Updating the email of a built user is building it with that email,
      and the update undoes itself when given back the old address. */
  lemma WithEmailLaws(email: string, username: string, other: string, u: User)
    ensures WithEmail(BuildUser(email, username), other) == BuildUser(other, username)
    ensures WithEmail(WithEmail(u, other), u.email) == u
  {
  }

  /** `user2.email = ...` and `user4 = User { email: ..., ..user3 }`. */
  lemma UserExamples()
    ensures var user2 := User(true, "anotheruser", "another@example.com", 1);
            WithEmail(user2, "newemail@example.com") ==
              User(true, "anotheruser", "newemail@example.com", 1)
    ensures var user3 := BuildUser("test@example.com", "testuser");
            WithEmail(user3, "different@example.com") ==
              User(true, "testuser", "different@example.com", 1)
  {
  }

  // ---------------------------------------------------------------------------
  // Option

  /** `x + y.unwrap_or(0)`; the `i32` addition panics on overflow. */
  function AddOrZero(x: int32, y: Option<int32>): (r: int32)
    requires IsInt32(x as int + y.UnwrapOr(0) as int)
    ensures y.None? ==> r == x
    ensures y.Some? ==> r as int == x as int + y.value as int
  {
    x + y.UnwrapOr(0)
  }

  lemma AddOrZeroExample()
    ensures AddOrZero(5, Some(5)) == 10 && AddOrZero(5, None) == 5
  {
  }
}
