/**
 * The small part of the Java platform the adapter relies on: nullable
 * results, the exceptions it throws, the objects it stores as keys and
 * values (with their `toString` and `hashCode`), class tokens for the
 * reflective checks, and the fixed-width integer arithmetic of `int` and
 * `long`.
 */
module Java {

  /** A Java reference that may be null. */
  datatype Option<+T> = None | Some(value: T)

  /** The exceptions the modelled code throws or swallows. */
  datatype Exception =
    | NullPointer
    | IllegalArgument
    | IllegalState
    | ClassCast
    | UnsupportedOperation

  /** The outcome of a call that returns a value or throws. */
  datatype Result<+T> = Ok(value: T) | Err(error: Exception)

  /** The outcome of a `void` call: it returns normally or throws. */
  datatype Status = Normal | Thrown(error: Exception)

  const INT_MIN: int := -0x8000_0000
  const INT_MAX: int := 0x7FFF_FFFF
  const LONG_MIN: int := -0x8000_0000_0000_0000
  const LONG_MAX: int := 0x7FFF_FFFF_FFFF_FFFF

  /** The values of a Java `int`. */
  type Int32 = x: int | INT_MIN <= x <= INT_MAX

  /** The values of a Java `long`. */
  type Int64 = x: int | LONG_MIN <= x <= LONG_MAX

  /** Two's-complement wrap-around of a mathematical integer into `long`. */
  function WrapLong(x: int): (r: Int64)
    ensures LONG_MIN <= x <= LONG_MAX ==> r == x
    ensures (r - x) % 0x1_0000_0000_0000_0000 == 0
  {
    var m := x % 0x1_0000_0000_0000_0000;
    if m <= LONG_MAX then m else m - 0x1_0000_0000_0000_0000
  }

  /** The narrowing cast `(int) x` of a `long`: keeps the low 32 bits. */
  function ToInt32(x: int): (r: Int32)
    ensures INT_MIN <= x <= INT_MAX ==> r == x
    ensures (r - x) % 0x1_0000_0000 == 0
  {
    var m := x % 0x1_0000_0000;
    if m <= INT_MAX then m else m - 0x1_0000_0000
  }

  /** Java's integer division, which truncates toward zero. */
  function JavaDiv(a: int, b: int): (q: int)
    requires b > 0
    ensures a >= 0 ==> q == a / b
    ensures a < 0 ==> q == -((-a) / b)
  {
    if a >= 0 then a / b else -((-a) / b)
  }

  /** The objects stored in the cache: boxed integers and strings. */
  datatype Obj = JInteger(i: Int32) | JString(s: string)

  function DigitChar(d: nat): (c: char)
    requires d < 10
    ensures '0' <= c <= '9'
  {
    "0123456789"[d]
  }

  /** Decimal rendering of a natural number, as `Integer.toString` writes it. */
  function NatToString(n: nat): (s: string)
    ensures |s| > 0
    ensures forall i :: 0 <= i < |s| ==> '0' <= s[i] <= '9'
    decreases n
  {
    if n < 10 then [DigitChar(n)] else NatToString(n / 10) + [DigitChar(n % 10)]
  }

  /** `Integer.toString`: an optional minus sign, then the decimal digits. */
  function IntToString(i: int): string
  {
    if i < 0 then "-" + NatToString(-i) else NatToString(i)
  }

  /** `Object.toString` of a key. */
  function ToString(o: Obj): string
  {
    match o
    case JInteger(i) => IntToString(i)
    case JString(s) => s
  }

  /** `String.hashCode`: s[0]*31^(n-1) + ... + s[n-1] in 32-bit arithmetic. */
  function StringHash(s: string): Int32
    decreases |s|
  {
    if s == [] then 0 else ToInt32(31 * StringHash(s[..|s| - 1]) + s[|s| - 1] as int)
  }

  /** `Object.hashCode` of a key: an `Integer` hashes to its value. */
  function HashCode(o: Obj): Int32
  {
    match o
    case JInteger(i) => i
    case JString(s) => StringHash(s)
  }

  /**
   * Class tokens for the reflective checks (`isAssignableFrom`, `equals` on
   * classes) and for the key and value types of a configuration.
   */
  datatype JClass =
    | ObjectClass
    | IntegerClass
    | StringClass
    | IterableClass
    | CacheClass
    | SpyCacheClass
    | MapClass
    | MemcachedClientClass
    | ConfigurationClass
    | CompleteConfigurationClass
    | MutableConfigurationClass
    | SpyMutableConfigurationClass
    | CacheManagerClass
    | SpyCacheManagerClass
    | CacheEntryClass
    | MutableEntryClass
    | RIEntryClass
    | UserClass(name: string)

  /** The classes and interfaces a class is assignable to (itself included). */
  function Supertypes(c: JClass): (r: set<JClass>)
    ensures c in r && ObjectClass in r
  {
    match c
    case SpyCacheClass => {SpyCacheClass, CacheClass, IterableClass, ObjectClass}
    case CacheClass => {CacheClass, IterableClass, ObjectClass}
    case SpyMutableConfigurationClass =>
      {SpyMutableConfigurationClass, MutableConfigurationClass, CompleteConfigurationClass, ConfigurationClass, ObjectClass}
    case MutableConfigurationClass =>
      {MutableConfigurationClass, CompleteConfigurationClass, ConfigurationClass, ObjectClass}
    case CompleteConfigurationClass => {CompleteConfigurationClass, ConfigurationClass, ObjectClass}
    case SpyCacheManagerClass => {SpyCacheManagerClass, CacheManagerClass, ObjectClass}
    case RIEntryClass => {RIEntryClass, MutableEntryClass, CacheEntryClass, ObjectClass}
    case MutableEntryClass => {MutableEntryClass, CacheEntryClass, ObjectClass}
    case _ => {c, ObjectClass}
  }

  /** `target.isAssignableFrom(source)`. */
  predicate IsAssignableFrom(target: JClass, source: JClass)
  {
    target in Supertypes(source)
  }
}
