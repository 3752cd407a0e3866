/** Small value types the other modules share. */
module Basics {

  datatype Option<+T> = None | Some(value: T)

  /** One value per quarter pair: `top` for quarters 0-1, `bot` for quarters 2-3. */
  datatype Two<T> = Two(top: T, bot: T) {
    function At(isTop: bool): T { if isTop then top else bot }

    function With(isTop: bool, value: T): Two<T> {
      if isTop then this.(top := value) else this.(bot := value)
    }
  }

  const TWO_TO_THE_32: int := 0x1_0000_0000
  const TWO_TO_THE_31: int := 0x8000_0000

  type byte = x: int | 0 <= x < 256

  type u32 = x: int | 0 <= x < TWO_TO_THE_32

  /** YUYV black: luma 16, chroma 128. */
  function Black(size: nat): seq<byte> {
    seq(size, i => if i % 2 == 0 then 0x10 else 0x80)
  }
}
