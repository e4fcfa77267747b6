/**
 * Player status of the Python engine. status.py is not part of this model;
 * the engine uses exactly these three members.
 */
module PlayerStatus {
  datatype Status = Active | Folded | AllIn
}
