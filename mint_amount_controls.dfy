/** The mint amount stepper (src/components/mint/MintAmountControls.tsx; the same
    two clamps and disabled conditions are repeated in
    src/components/MintControls.tsx). */
module MintAmountControls {

  /** "−": `Math.max(1, mintAmount - 1)`. */
  function Decrement(mintAmount: int): (r: int)
    ensures r >= 1
    ensures mintAmount > 1 ==> r == mintAmount - 1
    ensures mintAmount <= 1 ==> r == 1
  {
    if 1 >= mintAmount - 1 then 1 else mintAmount - 1
  }

  /** "+": `Math.min(maxMintAmount, mintAmount + 1)`. */
  function Increment(mintAmount: int, maxMintAmount: int): (r: int)
    ensures r <= maxMintAmount
    ensures mintAmount < maxMintAmount ==> r == mintAmount + 1
    ensures mintAmount >= maxMintAmount ==> r == maxMintAmount
  {
    if maxMintAmount <= mintAmount + 1 then maxMintAmount else mintAmount + 1
  }

  /** "−" is disabled (`mintAmount <= 1`) exactly when pressing it would not lower
      the amount. */
  function DecrementDisabled(mintAmount: int): (disabled: bool)
    ensures disabled <==> Decrement(mintAmount) >= mintAmount
  {
    mintAmount <= 1
  }

  /** "+" is disabled (`mintAmount >= maxMintAmount`) exactly when pressing it would
      not raise the amount. */
  function IncrementDisabled(mintAmount: int, maxMintAmount: int): (disabled: bool)
    ensures disabled <==> Increment(mintAmount, maxMintAmount) <= mintAmount
  {
    mintAmount >= maxMintAmount
  }

  /** Within [1, max] both buttons keep the amount within [1, max]. */
  lemma StepsStayInRange(mintAmount: int, maxMintAmount: int)
    requires 1 <= mintAmount <= maxMintAmount
    ensures 1 <= Decrement(mintAmount) <= maxMintAmount
    ensures 1 <= Increment(mintAmount, maxMintAmount) <= maxMintAmount
  {
  }

  /** "−" is enabled exactly when pressing it would lower the amount, and "+"
      exactly when pressing it would raise it. */
  lemma EnabledExactlyWhenMoving(mintAmount: int, maxMintAmount: int)
    ensures !DecrementDisabled(mintAmount) <==> Decrement(mintAmount) < mintAmount
    ensures !IncrementDisabled(mintAmount, maxMintAmount) <==> Increment(mintAmount, maxMintAmount) > mintAmount
  {
  }

  /** "+" undoes "−" inside the range. */
  lemma IncrementUndoesDecrement(mintAmount: int, maxMintAmount: int)
    requires 1 < mintAmount <= maxMintAmount
    ensures Increment(Decrement(mintAmount), maxMintAmount) == mintAmount
  {
  }

}
