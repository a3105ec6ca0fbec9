/**
 The numeric helpers of garbagecat's `JdkMath` that the unified events call.
 Their definitions involve decimal and floating-point arithmetic that is not part
 of this model, so an event is built against any choice of them: every result
 below holds for all `JdkMath` values.
 */
module Conversions {

  datatype JdkMath = JdkMath(
    /** `calcKilobytes(size, unit)`: a size with unit character B, K, M or G, in kilobytes. */
    calcKilobytes: (int, char) -> int,
    /** `convertSecsToMillis(text).longValue()`. */
    convertSecsToMillis: string -> int,
    /** `convertMillisToMicros(text).intValue()`. */
    convertMillisToMicros: string -> int,
    /** `convertSecsToCentis(text).intValue()`. */
    convertSecsToCentis: string -> int,
    /** `calcParallelism(timeUser, timeReal)`. */
    calcParallelism: (int, int) -> int)
}
