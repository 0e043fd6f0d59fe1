/** Machine integers and the division of Go, which truncates toward zero. */
module GoIntegers {

  type Int32 = x: int | -0x8000_0000 <= x < 0x8000_0000

  function Wrap32(n: int): Int32 {
    var m := n % 0x1_0000_0000;
    if m < 0x8000_0000 then m else m - 0x1_0000_0000
  }

  function Quo(a: int, b: int): int
    requires b > 0
  {
    if a >= 0 then a / b else -((-a) / b)
  }

  function Rem(a: int, b: int): int
    requires b != 0
  {
    if a >= 0 then a % b else -((-a) % b)
  }
}
